/** What an asynchronous write does to the store, whatever happens to it: exact counts, exact rollback. */
module AsyncCorrect {
  import opened Types
  import opened Codec
  import opened NvramSim
  import opened Registry
  import opened Store
  import opened Programs
  import opened AsyncWrite
  import opened AsyncCommit

  /** The segment map but for access counts, the content store and the capsules are what they were. */
  predicate Restored(a: Store, b: Store) {
    && b.log.segs.Keys == a.log.segs.Keys
    && (forall id :: id in a.log.segs ==> b.log.segs[id] == a.log.segs[id].(accessCount := b.log.segs[id].accessCount))
    && b.reg.content == a.reg.content && b.reg.capsules == a.reg.capsules
  }

  /** The allocator and every byte below it are what they were. */
  predicate Truncated(a: Log, b: Log) {
    var n := Min(|a.file|, a.next);
    b.next == a.next && n <= |b.file| && b.file[..n] == a.file[..n]
  }

  /** With the same references, exact counts and faithful flags determine the segment map. */
  lemma SameRecordsRestore(env: Env, a: Store, b: Store, f: multiset<SegmentId>)
    requires Inv(env, a, f) && Inv(env, b, f) && SameRecords(a.log, b.log)
    requires b.reg.content == a.reg.content && b.reg.capsules == a.reg.capsules
    ensures Restored(a, b)
  {
    hide Consistent, Refs;
  }

  lemma FlightLeads(env: Env, st: Store, f: multiset<SegmentId>, dedupe: bool, fl: Flight)
    requires FlightInv(env, st, f, dedupe, fl)
    ensures Leads(env, st, f, fl.steps, fl.st, f + multiset(fl.incs)) && FlightBook(env, st, dedupe, fl)
    ensures Inv(env, fl.st, f + multiset(fl.incs)) && Staged(fl.st.log, fl.txn) && fl.st.log.next == fl.txn.cur
    ensures forall i :: 0 <= i < |fl.txn.pending| ==> PendingOk(env, fl.txn.pending[i], fl.st.reg.nextId)
  {
  }

  lemma LeadsRun(env: Env, st: Store, f: multiset<SegmentId>, steps: seq<Step>, st1: Store, f1: multiset<SegmentId>)
    requires Leads(env, st, f, steps, st1, f1)
    ensures Run(st, steps) == st1 && Inv(env, st1, f1)
  {
  }

  lemma LeadsAbort(env: Env, st: Store, f: multiset<SegmentId>, steps: seq<Step>, st1: Store, held: multiset<SegmentId>,
                   incs: seq<SegmentId>, error: Error)
    requires Leads(env, st, f, steps, st1, held) && multiset(incs) <= held
    ensures var w := Abort(st, steps, incs, error); var st' := Undo(st1, incs).st;
            && w.outcome == Err(error)
            && Leads(env, st, f, w.steps, st', held - multiset(incs)) && SameButCounts(st1, st')
  {
    hide Leads, Inv, SameButCounts;
    LeadsRun(env, st, f, steps, st1, held);
    UndoOk(env, st1, held, incs);
    var u := Undo(st1, incs);
    LeadsOn(env, st, f, steps, st1, held, u.steps, u.st, held - multiset(incs));
  }

  lemma {:induction false} WriteAtPrefix(file: Bytes, off: nat, data: Bytes, n: nat)
    requires n <= |file| && n <= off
    ensures n <= |WriteAt(file, off, data)| && WriteAt(file, off, data)[..n] == file[..n]
  {
  }

  lemma {:induction false} WriteAllPrefix(file: Bytes, pending: seq<Pending>, n: nat)
    requires n <= |file| && forall i :: 0 <= i < |pending| ==> n <= pending[i].segment.offset
    ensures n <= |WriteAll(file, pending)| && WriteAll(file, pending)[..n] == file[..n]
  {
    if pending != [] {
      var k := |pending| - 1;
      WriteAllPrefix(file, pending[..k], n);
      WriteAtPrefix(WriteAll(file, pending[..k]), pending[k].segment.offset, pending[k].data, n);
    }
  }

  lemma WriteTornPrefix(file: Bytes, pending: seq<Pending>, entries: nat, bytes: nat, n: nat)
    requires n <= |file| && forall i :: 0 <= i < |pending| ==> n <= pending[i].segment.offset
    ensures n <= |WriteTorn(file, pending, entries, bytes)| && WriteTorn(file, pending, entries, bytes)[..n] == file[..n]
  {
    if entries >= |pending| {
      WriteAllPrefix(file, pending, n);
    } else {
      WriteAllPrefix(file, pending[..entries], n);
      var e := pending[entries];
      WriteAtPrefix(WriteAll(file, pending[..entries]), e.segment.offset, e.data[..Min(bytes, |e.data|)], n);
    }
  }

  // ---------------------------------------------------------------- failure before or inside the commit

  lemma BookAtBase(env: Env, st: Store, dedupe: bool, fl: Flight, file: Bytes, b: Store)
    requires FlightBook(env, st, dedupe, fl)
    requires SameButCounts(fl.st.(log := Log(file, fl.st.log.segs, fl.txn.base)), b)
    requires var n := Min(|st.log.file|, st.log.next); n <= |file| && file[..n] == st.log.file[..n]
    ensures SameRecords(st.log, b.log) && Truncated(st.log, b.log)
    ensures b.reg.content == st.reg.content && b.reg.capsules == st.reg.capsules
  {
  }

  lemma RollbackExact(env: Env, st: Store, f: multiset<SegmentId>, dedupe: bool, fl: Flight, error: Error)
    requires Inv(env, st, f) && FlightInv(env, st, f, dedupe, fl)
    ensures var w := Abort(st, fl.steps + [MoveNextStep(fl.txn.base)], fl.incs, error); var st' := Run(st, w.steps);
            && w.outcome == Err(error) && Leads(env, st, f, w.steps, st', f)
            && Restored(st, st') && Truncated(st.log, st'.log) && st'.log.file == st.log.file
  {
    hide Inv, Leads, FlightInv, Restored, SameButCounts, Refs;
    FlightLeads(env, st, f, dedupe, fl);
    var move, held := MoveNextStep(fl.txn.base), f + multiset(fl.incs);
    LeadsStep(env, st, f, fl.steps, fl.st, held, move);
    AbortRestores(env, st, f, dedupe, fl, fl.steps + [move], Do(fl.st, move), error);
  }

  lemma AbortRestores(env: Env, st: Store, f: multiset<SegmentId>, dedupe: bool, fl: Flight, steps: seq<Step>, st1: Store, error: Error)
    requires Inv(env, st, f) && FlightBook(env, st, dedupe, fl)
    requires Leads(env, st, f, steps, st1, f + multiset(fl.incs))
    requires st1 == fl.st.(log := Log(st1.log.file, fl.st.log.segs, fl.txn.base))
    requires var n := Min(|st.log.file|, st.log.next); n <= |st1.log.file| && st1.log.file[..n] == st.log.file[..n]
    ensures var w := Abort(st, steps, fl.incs, error); var st' := Run(st, w.steps);
            && w.outcome == Err(error) && Leads(env, st, f, w.steps, st', f)
            && Restored(st, st') && Truncated(st.log, st'.log) && st'.log.file == st1.log.file
  {
    hide Inv, Leads, Restored, FlightBook, Refs;
    var held := f + multiset(fl.incs);
    LeadsAbort(env, st, f, steps, st1, held, fl.incs, error);
    assert held - multiset(fl.incs) == f;
    var w, st' := Abort(st, steps, fl.incs, error), Undo(st1, fl.incs).st;
    LeadsRun(env, st, f, w.steps, st', f);
    BookAtBase(env, st, dedupe, fl, st1.log.file, st');
    SameRecordsRestore(env, st, st', f);
  }

  lemma TornCommitExact(env: Env, st: Store, f: multiset<SegmentId>, dedupe: bool, fl: Flight, entries: nat, bytes: nat)
    requires Inv(env, st, f) && FlightInv(env, st, f, dedupe, fl) && fl.txn.pending != []
    ensures var w := Abort(st, fl.steps + CommitSteps(fl.txn, Torn(entries, bytes)), fl.incs, DeviceFailure);
            var st' := Run(st, w.steps);
            && w.outcome == Err(DeviceFailure) && Leads(env, st, f, w.steps, st', f)
            && Restored(st, st') && Truncated(st.log, st'.log)
  {
    hide Inv, Leads, FlightInv, Restored, SameButCounts, Refs;
    FlightLeads(env, st, f, dedupe, fl);
    var t, held := fl.txn, f + multiset(fl.incs);
    var file := WriteTorn(fl.st.log.file, t.pending, entries, bytes);
    var st1 := fl.st.(log := Log(file, fl.st.log.segs, t.base));
    WriteTornPrefix(fl.st.log.file, t.pending, entries, bytes, Min(|st.log.file|, st.log.next));
    TornLeads(env, fl.st, held, t, entries, bytes);
    LeadsOn(env, st, f, fl.steps, fl.st, held, CommitSteps(t, Torn(entries, bytes)), st1, held);
    AbortRestores(env, st, f, dedupe, fl, fl.steps + CommitSteps(t, Torn(entries, bytes)), st1, DeviceFailure);
  }

  // ---------------------------------------------------------------- after a good commit

  /** The store when every staged segment is published and registered. */
  function Landed(fl: Flight): Store { AsyncCommit.Registered(Published(fl.st, fl.txn), fl.regs) }

  function LandedSteps(fl: Flight): seq<Step> { fl.steps + CommitSteps(fl.txn, Good) + RegisterSteps(fl.regs) }

  /** The facts of the flight's book that what follows needs, one by one. */
  lemma BookFacts(env: Env, st: Store, dedupe: bool, fl: Flight)
    requires FlightBook(env, st, dedupe, fl)
    ensures Listed(dedupe, fl.txn.pending, fl.regs) && StagedMap(fl.staged, fl.regs, st.reg.content)
    ensures SameRecords(st.log, fl.st.log) && fl.st.reg == st.reg.(nextId := fl.st.reg.nextId)
    ensures multiset(fl.ids) == multiset(fl.incs) + PendingRefs(fl.txn.pending)
    ensures DistinctIds(fl.txn.pending) && Unpublished(fl.st.log.segs, fl.txn.pending)
  {
  }

  predicate DistinctIds(pending: seq<Pending>) {
    forall i, j :: 0 <= i < j < |pending| ==> pending[i].segment.id != pending[j].segment.id
  }

  predicate Unpublished(segs: map<SegmentId, Segment>, pending: seq<Pending>) {
    forall i :: 0 <= i < |pending| ==> pending[i].segment.id !in segs
  }

  lemma PublishedNames(env: Env, st: Store, dedupe: bool, fl: Flight)
    requires FlightBook(env, st, dedupe, fl)
    ensures AsyncCommit.Registrable(Published(fl.st, fl.txn), fl.regs)
    ensures dedupe ==> IdsOf(fl.regs) == PendingMap(fl.txn.pending).Keys
    ensures PendingMap(fl.txn.pending).Keys !! fl.st.log.segs.Keys
  {
    hide FlightBook, WriteAll, PendingRefs, SameRecords, StagedMap, Listed, AsyncCommit.Registrable, PendingMap;
    var pending, st1 := fl.txn.pending, Published(fl.st, fl.txn);
    BookFacts(env, st, dedupe, fl);
    PendingMapContents(pending);
    forall id | id in PendingMap(pending) ensures id !in fl.st.log.segs {
      assert pending[Find(pending, id).value].segment.id == id;
    }
    assert forall i :: 0 <= i < |pending| ==> pending[i].segment.id in st1.log.segs && st1.log.segs[pending[i].segment.id] == pending[i].segment;
    ListedRegistrable(st1, dedupe, pending, fl.regs, fl.staged, st.reg.content);
    if dedupe { ListedIds(pending, fl.regs); }
  }

  lemma ListedRegistrable(st: Store, dedupe: bool, pending: seq<Pending>, regs: seq<(ContentHash, SegmentId)>,
                          staged: map<ContentHash, SegmentId>, content: map<ContentHash, SegmentId>)
    requires Listed(dedupe, pending, regs) && DistinctIds(pending) && StagedMap(staged, regs, content)
    requires forall i :: 0 <= i < |pending| ==> pending[i].segment.id in st.log.segs && st.log.segs[pending[i].segment.id] == pending[i].segment
    ensures AsyncCommit.Registrable(st, regs)
  {
    forall i | 0 <= i < |regs|
      ensures regs[i].1 in st.log.segs && st.log.segs[regs[i].1].contentHash == Some(regs[i].0) && regs[i].1 == pending[i].segment.id
    {
      assert pending[i].segment.id == regs[i].1;
    }
  }

  lemma ListedIds(pending: seq<Pending>, regs: seq<(ContentHash, SegmentId)>)
    requires Listed(true, pending, regs)
    requires forall id :: id in PendingMap(pending) <==> Find(pending, id).Some?
    ensures IdsOf(regs) == PendingMap(pending).Keys
  {
    forall id ensures id in IdsOf(regs) <==> id in PendingMap(pending) {
      if id in PendingMap(pending) {
        var i := Find(pending, id).value;
        assert regs[i].1 == id;
      }
    }
  }

  lemma FlightHolds(env: Env, st: Store, f: multiset<SegmentId>, dedupe: bool, fl: Flight)
    requires FlightBook(env, st, dedupe, fl)
    ensures f + multiset(fl.incs) + PendingRefs(fl.txn.pending) == f + multiset(fl.ids)
  {
  }

  lemma LandedLeads(env: Env, st: Store, f: multiset<SegmentId>, dedupe: bool, fl: Flight)
    requires Inv(env, st, f) && FlightInv(env, st, f, dedupe, fl)
    ensures Leads(env, st, f, LandedSteps(fl), Landed(fl), f + multiset(fl.ids))
    ensures Inv(env, Landed(fl), f + multiset(fl.ids))
  {
    hide Inv, Leads, FlightInv, FlightBook, PendingOk, Refs, Staged, Published, AsyncCommit.Registered, AsyncCommit.Registrable;
    FlightLeads(env, st, f, dedupe, fl);
    PublishedNames(env, st, dedupe, fl);
    FlightHolds(env, st, f, dedupe, fl);
    var held, committed := f + multiset(fl.incs), CommitSteps(fl.txn, Good);
    var st1, f1 := Published(fl.st, fl.txn), f + multiset(fl.ids);
    CommitLeads(env, fl.st, held, fl.txn);
    LeadsOn(env, st, f, fl.steps, fl.st, held, committed, st1, f1);
    LeadsRun(env, st, f, fl.steps + committed, st1, f1);
    RegisterLeads(env, st1, f1, fl.regs, |fl.regs|);
    assert fl.regs[..|fl.regs|] == fl.regs;
    LeadsOn(env, st, f, fl.steps + committed, st1, f1, RegisterSteps(fl.regs), Landed(fl), f1);
    LeadsRun(env, st, f, LandedSteps(fl), Landed(fl), f1);
  }

  // ---------------------------------------------------------------- a refused capsule id

  lemma {:induction false} RegMapContents(regs: seq<(ContentHash, SegmentId)>)
    requires forall i, j :: 0 <= i < j < |regs| ==> regs[i].0 != regs[j].0
    ensures RegMap(regs).Keys == HashesOf(regs)
    ensures forall i :: 0 <= i < |regs| ==> regs[i].0 in RegMap(regs) && RegMap(regs)[regs[i].0] == regs[i].1
  {
    if regs != [] {
      var n := |regs| - 1;
      RegMapContents(regs[..n]);
      assert HashesOf(regs) == HashesOf(regs[..n]) + {regs[n].0};
    }
  }

  lemma LandedCleanable(env: Env, st: Store, f: multiset<SegmentId>, dedupe: bool, fl: Flight)
    requires Inv(env, st, f) && FlightBook(env, st, dedupe, fl)
    ensures AsyncCommit.Cleanable(Landed(fl), fl.regs)
    ensures HashesOf(fl.regs) !! st.reg.content.Keys
    ensures Landed(fl).reg.content == st.reg.content + RegMap(fl.regs) && Landed(fl).reg.capsules == st.reg.capsules
  {
    hide Inv, FlightBook, WriteAll, PendingRefs, PendingMap, SameRecords, Listed, StagedMap, DistinctIds, Unpublished, Refs;
    BookFacts(env, st, dedupe, fl);
    PublishedNames(env, st, dedupe, fl);
    LandedUnreferenced(env, st, f, dedupe, fl);
    LandedContent(fl, st.reg.content);
  }

  lemma LandedContent(fl: Flight, content: map<ContentHash, SegmentId>)
    requires StagedMap(fl.staged, fl.regs, content) && fl.st.reg.content == content
    ensures Landed(fl).reg.content == content + RegMap(fl.regs) && HashesOf(fl.regs) !! content.Keys
    ensures InContent(Landed(fl), fl.regs)
  {
    RegMapContents(fl.regs);
    if fl.regs == [] { assert content + RegMap(fl.regs) == content; }
  }

  lemma LandedUnreferenced(env: Env, st: Store, f: multiset<SegmentId>, dedupe: bool, fl: Flight)
    requires Inv(env, st, f) && FlightBook(env, st, dedupe, fl)
    ensures forall i :: 0 <= i < |fl.regs| ==> Refs(st.reg.capsules)[fl.regs[i].1] == 0
  {
    hide FlightBook, PendingRefs, Hashed, Refs, LogOk;
    BookFacts(env, st, dedupe, fl);
    forall i | 0 <= i < |fl.regs| ensures Refs(st.reg.capsules)[fl.regs[i].1] == 0 {
      assert fl.regs[i].1 == fl.txn.pending[i].segment.id;
      assert fl.regs[i].1 !in st.log.segs;
      RefsMember(st.reg.capsules, fl.regs[i].1);
    }
  }

  /** After a refused capsule id the cleanup takes the new segments and entries away again (dedupe on). */
  lemma CollisionCleaned(env: Env, st: Store, f: multiset<SegmentId>, fl: Flight)
    requires Inv(env, st, f) && FlightInv(env, st, f, true, fl)
    ensures var c := AsyncCommit.Cleaned(Landed(fl), fl.regs);
            && SameRecords(st.log, c.log) && c.reg.content == st.reg.content && c.reg.capsules == st.reg.capsules
            && Zeroed(f + multiset(fl.ids), fl.regs) == f + multiset(fl.incs)
  {
    hide Inv, FlightInv, FlightBook, PendingRefs, PendingMap, WriteAll, Refs, Zeroed, Listed, StagedMap, Registrable, AsyncCommit.Cleanable,
         DistinctIds, Unpublished, SameRecords;
    FlightLeads(env, st, f, true, fl);
    BookFacts(env, st, true, fl);
    LandedCleanable(env, st, f, true, fl);
    PublishedNames(env, st, true, fl);
    LandedCleaned(fl, st.reg.content);
    SameRecordsNext(st.log, fl.st.log, AsyncCommit.Cleaned(Landed(fl), fl.regs).log);
    CollisionHeld(env, st, f, fl);
  }

  lemma LandedCleaned(fl: Flight, content: map<ContentHash, SegmentId>)
    requires AsyncCommit.Cleanable(Landed(fl), fl.regs)
    requires IdsOf(fl.regs) == PendingMap(fl.txn.pending).Keys && PendingMap(fl.txn.pending).Keys !! fl.st.log.segs.Keys
    requires Landed(fl).reg.content == content + RegMap(fl.regs) && HashesOf(fl.regs) !! content.Keys
    ensures var c := AsyncCommit.Cleaned(Landed(fl), fl.regs);
            c.log.segs == fl.st.log.segs && c.reg.content == content && c.reg.capsules == fl.st.reg.capsules
  {
    hide PendingMap, WriteAll, Refs, RegMap;
    CleanedContents(Landed(fl), fl.regs);
    RegMapContents(fl.regs);
    MapUndo(fl.st.log.segs, PendingMap(fl.txn.pending), IdsOf(fl.regs));
    MapUndo(content, RegMap(fl.regs), HashesOf(fl.regs));
  }

  lemma MapUndo<K, V>(a: map<K, V>, b: map<K, V>, keys: set<K>)
    requires keys == b.Keys && a.Keys !! b.Keys
    ensures (a + b) - keys == a
  {
  }

  lemma CollisionHeld(env: Env, st: Store, f: multiset<SegmentId>, fl: Flight)
    requires Inv(env, fl.st, f + multiset(fl.incs)) && FlightBook(env, st, true, fl)
    ensures Zeroed(f + multiset(fl.ids), fl.regs) == f + multiset(fl.incs)
  {
    hide Inv, FlightBook, PendingRefs, PendingMap, WriteAll, Refs, Zeroed, SameRecords, StagedMap, Listed, Registrable, IdsOf;
    HeldAreLive(env, fl.st, f + multiset(fl.incs));
    BookFacts(env, st, true, fl);
    PublishedNames(env, st, true, fl);
    PendingMapContents(fl.txn.pending);
    forall id ensures Zeroed(f + multiset(fl.ids), fl.regs)[id] == (f + multiset(fl.incs))[id] {
      ZeroedAt(f + multiset(fl.ids), fl.regs, id);
      PendingRefsAt(fl.txn.pending, id);
    }
  }

  lemma HeldAreLive(env: Env, st: Store, f: multiset<SegmentId>)
    requires Inv(env, st, f)
    ensures forall id :: id in f ==> id in st.log.segs
  {
  }

  lemma CollisionExact(env: Env, st: Store, f: multiset<SegmentId>, fl: Flight)
    requires Inv(env, st, f) && FlightInv(env, st, f, true, fl)
    ensures var w := Abort(st, LandedSteps(fl) + CleanupSteps(fl.regs), fl.incs, CapsuleCollision); var st' := Run(st, w.steps);
            && w.outcome == Err(CapsuleCollision) && Leads(env, st, f, w.steps, st', f) && Restored(st, st')
  {
    hide Inv, Leads, FlightInv, FlightBook, Restored, Refs, Landed, LandedSteps, AsyncCommit.Cleanable, SameRecords, Zeroed;
    var c, held := AsyncCommit.Cleaned(Landed(fl), fl.regs), f + multiset(fl.incs);
    FlightLeads(env, st, f, true, fl);
    LandedLeads(env, st, f, true, fl);
    LandedCleanable(env, st, f, true, fl);
    CleanupLeads(env, Landed(fl), f + multiset(fl.ids), fl.regs);
    CollisionCleaned(env, st, f, fl);
    LeadsOn(env, st, f, LandedSteps(fl), Landed(fl), f + multiset(fl.ids), CleanupSteps(fl.regs), c, held);
    LeadsAbort(env, st, f, LandedSteps(fl) + CleanupSteps(fl.regs), c, held, fl.incs, CapsuleCollision);
    assert held - multiset(fl.incs) == f;
    var w, st' := Abort(st, LandedSteps(fl) + CleanupSteps(fl.regs), fl.incs, CapsuleCollision), Undo(c, fl.incs).st;
    LeadsRun(env, st, f, w.steps, st', f);
    SameRecordsTrans(st.log, c.log, st'.log);
    SameRecordsRestore(env, st, st', f);
  }

  lemma SameRecordsTrans(a: Log, b: Log, c: Log)
    requires SameRecords(a, b) && SameRecords(b, c)
    ensures SameRecords(a, c)
  {
  }

  /** ... but with dedupe off no registration was recorded, so the cleanup leaves every new segment behind. */
  lemma CollisionLeaks(env: Env, st: Store, f: multiset<SegmentId>, fl: Flight)
    requires Inv(env, st, f) && FlightInv(env, st, f, false, fl) && fl.txn.pending != []
    ensures var w := Abort(st, LandedSteps(fl) + CleanupSteps(fl.regs), fl.incs, CapsuleCollision); var st' := Run(st, w.steps);
            && w.outcome == Err(CapsuleCollision) && Leads(env, st, f, w.steps, st', f + multiset(fl.ids))
            && fl.txn.pending[0].segment.id in st'.log.segs && fl.txn.pending[0].segment.id !in st.log.segs
            && st' == Landed(fl)
  {
    hide Inv, Leads, FlightInv, PendingOk, PendingRefs, Refs, WriteAll;
    FlightLeads(env, st, f, false, fl);
    LandedLeads(env, st, f, false, fl);
    var held := f + multiset(fl.ids);
    assert CleanupSteps(fl.regs) == [] && fl.incs == [];
    LeadsAbort(env, st, f, LandedSteps(fl) + [], Landed(fl), held, [], CapsuleCollision) by {
      assert LandedSteps(fl) + [] == LandedSteps(fl);
    }
    assert held - multiset([]) == held;
    LeadsRun(env, st, f, LandedSteps(fl) + [] + [], Landed(fl), held) by {
      assert LandedSteps(fl) + [] + [] == LandedSteps(fl);
    }
    PendingMapContents(fl.txn.pending);
  }
}
