/** The asynchronous write refines the sequential one: committing in index order into a transaction, with a
    staged dedup map and deferred registration, ends where the sequential loop ends. */
module Refinement {
  import opened Types
  import opened Codec
  import opened NvramSim
  import opened Registry
  import opened Store
  import opened Programs
  import opened AsyncWrite
  import opened AsyncCommit
  import opened AsyncCorrect

  /** Equal but for access counts (the staged dedup hit does not bump them). */
  predicate SameSegs(a: map<SegmentId, Segment>, b: map<SegmentId, Segment>) {
    && a.Keys == b.Keys
    && forall id :: id in a ==> a[id].(accessCount := 0) == b[id].(accessCount := 0)
  }

  lemma SameSegsUpdate(a: map<SegmentId, Segment>, b: map<SegmentId, Segment>, id: SegmentId, x: Segment, y: Segment)
    requires SameSegs(a, b) && x.(accessCount := 0) == y.(accessCount := 0)
    ensures SameSegs(a[id := x], b[id := y])
  {
  }

  lemma SameSegsAt(a: map<SegmentId, Segment>, b: map<SegmentId, Segment>, id: SegmentId)
    requires SameSegs(a, b) && id in b
    ensures id in a && a[id].(accessCount := 0) == b[id].(accessCount := 0)
  {
  }

  /** A map update in the right-hand, or (for a key it lacks) the left-hand side of a merge. */
  lemma MergeUpdate<K, V>(a: map<K, V>, b: map<K, V>, k: K, v: V)
    ensures a + b[k := v] == (a + b)[k := v]
    ensures k !in b ==> a[k := v] + b == (a + b)[k := v]
  {
  }

  predicate Agree(a: Store, b: Store) {
    a.log.file == b.log.file && a.log.next == b.log.next && SameSegs(a.log.segs, b.log.segs) && a.reg == b.reg
  }

  /** The sequential loop's state is the flight as if it had landed. */
  predicate Tracks(r: LoopState, fl: Flight) {
    && r.error.None? && fl.error.None? && r.ids == fl.ids
    && r.st.reg.capsules == fl.st.reg.capsules && r.st.reg.nextId == fl.st.reg.nextId
    && r.st.reg.content == fl.st.reg.content + fl.staged
    && r.st.log.next == fl.txn.cur
    && r.st.log.file == WriteAll(fl.st.log.file, fl.txn.pending)
    && SameSegs(r.st.log.segs, fl.st.log.segs + PendingMap(fl.txn.pending))
  }

  function Feeds(preps: seq<Prepared>): seq<Feed> {
    seq(|preps|, i requires 0 <= i < |preps| => Feed(Ok(preps[i]), Good))
  }

  lemma {:induction false} PendingMapRevise(pending: seq<Pending>, i: nat, s: Segment)
    requires DistinctIds(pending) && i < |pending| && s.id == pending[i].segment.id
    ensures PendingMap(pending[i := pending[i].(segment := s)]) == PendingMap(pending)[s.id := s]
  {
    var n, revised := |pending| - 1, pending[i := pending[i].(segment := s)];
    if i == n {
      assert revised[..n] == pending[..n];
    } else {
      PendingMapRevise(pending[..n], i, s);
      assert revised[..n] == pending[..n][i := pending[i].(segment := s)];
      assert pending[n].segment.id != s.id;
    }
  }

  lemma {:induction false} WriteAllRevise(file: Bytes, pending: seq<Pending>, i: nat, s: Segment)
    requires i < |pending| && s.offset == pending[i].segment.offset
    ensures WriteAll(file, pending[i := pending[i].(segment := s)]) == WriteAll(file, pending)
  {
    var n, revised := |pending| - 1, pending[i := pending[i].(segment := s)];
    if i == n {
      assert revised[..n] == pending[..n];
    } else {
      WriteAllRevise(file, pending[..n], i, s);
      assert revised[..n] == pending[..n][i := pending[i].(segment := s)];
    }
  }

  lemma TracksStaged(r: LoopState, fl: Flight, h: ContentHash, i: nat)
    requires Tracks(r, fl) && h in fl.staged && DistinctIds(fl.txn.pending)
    requires i < |fl.txn.pending| && Find(fl.txn.pending, fl.staged[h]) == Some(i)
    ensures h in r.st.reg.content && r.st.reg.content[h] == fl.staged[h] && fl.staged[h] in r.st.log.segs
    ensures var id := fl.staged[h];
            Tracks(r.(st := Do(r.st, IncStep(id)), ids := r.ids + [id], steps := r.steps + [IncStep(id)]), StageHit(fl, id))
  {
    hide PendingMap, WriteAll, Find, SameSegs, DistinctIds, Revise;
    var id, pending := fl.staged[h], fl.txn.pending;
    var s, merged := pending[i].segment, fl.st.log.segs + PendingMap(pending);
    PendingMapAt(pending, id, i);
    StageHitParts(fl, id, i);
    PendingMapRevise(pending, i, Restaged(s));
    WriteAllRevise(fl.st.log.file, pending, i, Restaged(s));
    MergeUpdate(fl.st.log.segs, PendingMap(pending), id, Restaged(s));
    SameSegsAt(r.st.log.segs, merged, id);
    SameSegsUpdate(r.st.log.segs, merged, id, Incremented(r.st.log.segs[id]), Restaged(s));
  }

  lemma PendingMapAt(pending: seq<Pending>, id: SegmentId, i: nat)
    requires DistinctIds(pending) && i < |pending| && Find(pending, id) == Some(i)
    ensures pending[i].segment.id == id && id in PendingMap(pending) && PendingMap(pending)[id] == pending[i].segment
  {
    PendingMapContents(pending);
  }

  lemma StageHitParts(fl: Flight, id: SegmentId, i: nat)
    requires i < |fl.txn.pending| && Find(fl.txn.pending, id) == Some(i)
    ensures var e := fl.txn.pending[i];
            StageHit(fl, id) == fl.(txn := fl.txn.(pending := fl.txn.pending[i := e.(segment := Restaged(e.segment))]), ids := fl.ids + [id])
  {
  }

  lemma TracksStored(r: LoopState, fl: Flight, h: ContentHash)
    requires Tracks(r, fl) && h !in fl.staged && h in fl.st.reg.content
    requires fl.st.reg.content[h] in fl.st.log.segs && fl.st.reg.content[h] !in PendingMap(fl.txn.pending)
    ensures h in r.st.reg.content && r.st.reg.content[h] == fl.st.reg.content[h] && r.st.reg.content[h] in r.st.log.segs
    ensures var id := fl.st.reg.content[h];
            Tracks(r.(st := Do(r.st, IncStep(id)), ids := r.ids + [id], steps := r.steps + [IncStep(id)]), StoreHit(fl, id))
  {
    hide PendingMap, WriteAll, SameSegs;
    var id := fl.st.reg.content[h];
    var s, merged := fl.st.log.segs[id], fl.st.log.segs + PendingMap(fl.txn.pending);
    SameSegsAt(r.st.log.segs, merged, id);
    SameSegsUpdate(r.st.log.segs, merged, id, Incremented(r.st.log.segs[id]), Incremented(s));
    MergeUpdate(fl.st.log.segs, PendingMap(fl.txn.pending), id, Incremented(s));
  }

  lemma TracksNew(env: Env, r: LoopState, fl: Flight, dedupe: bool, p: Prepared)
    requires Tracks(r, fl) && Sealed(env, p)
    requires forall i :: 0 <= i < |fl.txn.pending| ==> fl.txn.pending[i].segment.id != fl.st.reg.nextId
    ensures Tracks(LoopState(Run(r.st, NewChunkSteps(r.st, dedupe, p)), r.ids + [r.st.reg.nextId], [], None), StageNew(fl, dedupe, p))
  {
    hide PendingMap, WriteAll, Run, StageNew, WriteAt, SameSegs, NewEntry, AfterTag, NewChunkSteps, Sealed;
    NewChunkRun(r.st, dedupe, p);
    StageNewEntry(env, fl, dedupe, p);
    StageNewParts(fl, dedupe, p);
    var id, e, fl' := fl.st.reg.nextId, NewEntry(fl, dedupe, p), StageNew(fl, dedupe, p);
    StagedOneMore(fl.st.log.file, fl.txn.pending, e);
    var merged := fl.st.log.segs + PendingMap(fl.txn.pending);
    MergeUpdate(fl.st.log.segs, PendingMap(fl.txn.pending), id, e.segment);
    MergeUpdate(fl.st.reg.content, fl.staged, p.hash, id);
    NewEntryIsTagged(r.st, fl, dedupe, p);
    SameSegsUpdate(r.st.log.segs, merged, id, e.segment, e.segment);
  }

  lemma StagedOneMore(file: Bytes, pending: seq<Pending>, e: Pending)
    ensures PendingMap(pending + [e]) == PendingMap(pending)[e.segment.id := e.segment]
    ensures WriteAll(file, pending + [e]) == WriteAt(WriteAll(file, pending), e.segment.offset, e.data)
  {
    assert (pending + [e])[..|pending|] == pending;
  }

  lemma NewEntryIsTagged(st: Store, fl: Flight, dedupe: bool, p: Prepared)
    requires st.reg.nextId == fl.st.reg.nextId && st.log.next == fl.txn.cur
    ensures var id, e, a := fl.st.reg.nextId, NewEntry(fl, dedupe, p), AfterTag(st, dedupe, p);
            && a.log == Log(WriteAt(st.log.file, st.log.next, p.data), st.log.segs[id := e.segment], st.log.next + |p.data|)
            && a.reg == st.reg.(nextId := id + 1)
  {
  }

  lemma TracksStep(env: Env, st: Store, f: multiset<SegmentId>, dedupe: bool, r: LoopState, fl: Flight, p: Prepared)
    requires FlightInv(env, st, f, dedupe, fl) && Tracks(r, fl) && Sealed(env, p)
    ensures CommitSegment(fl, dedupe, p).error.None? ==> Tracks(LoopStep(r, dedupe, Feed(Ok(p), Good)), CommitSegment(fl, dedupe, p))
  {
    hide Inv, FlightInv, FlightBook, StagedMap, Listed, PendingMap, SameSegs, SameRecords, WriteAll, NewChunkSteps, Sealed,
         StageNew, StageHit, StoreHit, Find, DistinctIds, Unpublished;
    FlightLeads(env, st, f, dedupe, fl);
    BookFacts(env, st, dedupe, fl);
    var h := p.hash;
    if dedupe && h in fl.staged {
      StagedFound(fl, st.reg.content, h);
      TracksStaged(r, fl, h, Find(fl.txn.pending, fl.staged[h]).value);
      RunOne(r.st, IncStep(fl.staged[h]));
    } else if dedupe && h in fl.st.reg.content {
      StoredFound(env, st, f, dedupe, fl, h);
      TracksStored(r, fl, h);
      RunOne(r.st, IncStep(fl.st.reg.content[h]));
    } else {
      TxnBookIds(env, fl, dedupe) by { FlightBookTxn(env, st, dedupe, fl); }
      TracksNew(env, r, fl, dedupe, p);
    }
  }

  lemma FlightBookTxn(env: Env, st: Store, dedupe: bool, fl: Flight)
    requires FlightBook(env, st, dedupe, fl)
    ensures TxnBook(env, fl.st.log, fl.txn, fl.st.reg.nextId, dedupe, fl.regs)
  {
  }

  lemma StagedFound(fl: Flight, content: map<ContentHash, SegmentId>, h: ContentHash)
    requires StagedMap(fl.staged, fl.regs, content) && Listed(true, fl.txn.pending, fl.regs) && h in fl.staged
    ensures Find(fl.txn.pending, fl.staged[h]).Some?
  {
    var i :| 0 <= i < |fl.regs| && fl.regs[i] == (h, fl.staged[h]);
    assert fl.txn.pending[i].segment.id == fl.staged[h];
  }

  lemma StoredFound(env: Env, st: Store, f: multiset<SegmentId>, dedupe: bool, fl: Flight, h: ContentHash)
    requires FlightInv(env, st, f, dedupe, fl) && h in fl.st.reg.content
    ensures fl.st.reg.content[h] in fl.st.log.segs && fl.st.reg.content[h] !in PendingMap(fl.txn.pending)
  {
    hide Inv, FlightInv, FlightBook, PendingMap;
    FlightContent(env, st, f, dedupe, fl);
    FlightLeads(env, st, f, dedupe, fl);
    PublishedNames(env, st, dedupe, fl);
  }

  lemma {:induction false} LoopTracks(env: Env, st: Store, f: multiset<SegmentId>, dedupe: bool, preps: seq<Prepared>)
    requires Inv(env, st, f) && Room(st.log, |preps|)
    requires forall i :: 0 <= i < |preps| ==> Sealed(env, preps[i]) && |preps[i].data| <= U32_MAX
    ensures Tracks(WriteLoop(st, dedupe, Feeds(preps)), CommitLoop(st, dedupe, preps))
  {
    hide Inv, FlightInv, Tracks, CommitSegment, LoopStep, Sealed, Refs, TakeOff;
    if preps == [] {
      TakeOffTracks(st);
    } else {
      var n := |preps| - 1;
      assert Feeds(preps)[..n] == Feeds(preps[..n]);
      LoopTracks(env, st, f, dedupe, preps[..n]);
      CommitLoopOk(env, st, f, dedupe, preps[..n]);
      CommitLoopOk(env, st, f, dedupe, preps);
      FlightOk(env, st, f, dedupe, CommitLoop(st, dedupe, preps));
      LoopUnfold(st, dedupe, Feeds(preps));
      TracksStep(env, st, f, dedupe, WriteLoop(st, dedupe, Feeds(preps[..n])), CommitLoop(st, dedupe, preps[..n]), preps[n]);
    }
  }

  lemma TakeOffTracks(st: Store)
    ensures Tracks(LoopState(st, [], [], None), TakeOff(st))
  {
    assert st.log.segs + PendingMap([]) == st.log.segs;
    assert st.reg.content + map[] == st.reg.content;
  }
}
