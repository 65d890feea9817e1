/** The asynchronous write: chunks are prepared in any order, committed in index order into one transaction
    with a staged dedup map, and registered after the commit; any failure undoes the whole write. */
module AsyncWrite {
  import opened Types
  import opened Codec
  import opened NvramSim
  import opened Registry
  import opened Store
  import opened Programs

  // ---------------------------------------------------------------- the ordered commit loop

  /** `steps` are the calls made so far; `staged`, `incs` and `regs` are the local bookkeeping of the write. */
  datatype Flight = Flight(
    st: Store,
    txn: Txn,
    staged: map<ContentHash, SegmentId>,
    incs: seq<SegmentId>,
    regs: seq<(ContentHash, SegmentId)>,
    ids: seq<SegmentId>,
    steps: seq<Step>,
    error: Option<Error>)

  function TakeOff(st: Store): Flight { Flight(st, Begin(st.log), map[], [], [], [], [], None) }

  function StageHit(fl: Flight, id: SegmentId): Flight {
    match Find(fl.txn.pending, id)
    case None => fl.(error := Some(SegmentNotFound))
    case Some(i) => fl.(txn := Revise(fl.txn, id, Restaged(fl.txn.pending[i].segment)), ids := fl.ids + [id])
  }

  function StoreHit(fl: Flight, id: SegmentId): Flight {
    if id !in fl.st.log.segs then fl.(error := Some(SegmentNotFound))
    else fl.(st := Do(fl.st, IncStep(id)), steps := fl.steps + [IncStep(id)], incs := fl.incs + [id], ids := fl.ids + [id])
  }

  function StageNew(fl: Flight, dedupe: bool, p: Prepared): Flight {
    var id, next := fl.st.reg.nextId, fl.txn.cur + |p.data|;
    Flight(
      Do(Do(fl.st, AllocStep), MoveNextStep(next)),
      Revise(Stage(fl.txn, id, p.data), id, Tagged(FreshSegment(id, fl.txn.cur, |p.data|), p, dedupe)),
      if dedupe then fl.staged[p.hash := id] else fl.staged,
      fl.incs,
      if dedupe then fl.regs + [(p.hash, id)] else fl.regs,
      fl.ids + [id],
      fl.steps + [AllocStep, MoveNextStep(next)],
      None)
  }

  function CommitSegment(fl: Flight, dedupe: bool, p: Prepared): Flight {
    if fl.error.Some? then fl
    else if dedupe && p.hash in fl.staged then StageHit(fl, fl.staged[p.hash])
    else if dedupe && p.hash in fl.st.reg.content then StoreHit(fl, fl.st.reg.content[p.hash])
    else StageNew(fl, dedupe, p)
  }

  function CommitLoop(st: Store, dedupe: bool, preps: seq<Prepared>): Flight {
    if preps == [] then TakeOff(st)
    else CommitSegment(CommitLoop(st, dedupe, preps[..|preps| - 1]), dedupe, preps[|preps| - 1])
  }

  // ---------------------------------------------------------------- the rest of the write

  datatype Undone = Undone(st: Store, steps: seq<Step>, error: Option<Error>)

  /** Decrement the dedup hits again, last first. */
  function Undo(st: Store, incs: seq<SegmentId>): Undone
    decreases |incs|
  {
    if incs == [] then Undone(st, [], None)
    else
      var id := incs[|incs| - 1];
      if id !in st.log.segs then Undone(st, [], Some(SegmentNotFound))
      else if st.log.segs[id].refCount == 0 then Undone(st, [], Some(ZeroRefCount))
      else var r := Undo(Do(st, DecStep(id)), incs[..|incs| - 1]); Undone(r.st, [DecStep(id)] + r.steps, r.error)
  }

  function FlushSteps(pending: seq<Pending>): seq<Step> {
    if pending == [] then []
    else FlushSteps(pending[..|pending| - 1]) + [WriteStep(pending[|pending| - 1].segment.offset, pending[|pending| - 1].data)]
  }

  /** The steps of the transaction's commit; a torn one ends by resetting the allocator. */
  function CommitSteps(t: Txn, io: Io): seq<Step> {
    if t.pending == [] then []
    else match io
         case Good => FlushSteps(t.pending) + [PublishStep(t)]
         case Torn(entries, bytes) => TornSteps(t.pending, entries, bytes) + [MoveNextStep(t.base)]
  }

  function TornSteps(pending: seq<Pending>, entries: nat, bytes: nat): seq<Step> {
    if entries >= |pending| then FlushSteps(pending)
    else
      var e := pending[entries];
      FlushSteps(pending[..entries]) + [WriteStep(e.segment.offset, e.data[..Min(bytes, |e.data|)])]
  }

  function RegisterSteps(regs: seq<(ContentHash, SegmentId)>): seq<Step> {
    if regs == [] then []
    else var (h, id) := regs[|regs| - 1]; RegisterSteps(regs[..|regs| - 1]) + [RegisterStep(h, id)]
  }

  function CleanupSteps(regs: seq<(ContentHash, SegmentId)>): seq<Step> {
    if regs == [] then []
    else var (h, id) := regs[|regs| - 1]; CleanupSteps(regs[..|regs| - 1]) + [DeregisterStep(h, id), RemoveStep(id)]
  }

  /** `before` has been done; undo the dedup hits and report `error`. */
  function Abort(st: Store, before: seq<Step>, incs: seq<SegmentId>, error: Error): Program {
    var u := Undo(Run(st, before), incs);
    Program(before + u.steps, Err(if u.error.Some? then u.error.value else error))
  }

  function CommitFlight(st: Store, cid: CapsuleId, size: nat, policy: Policy, fl: Flight, io: Io): Program {
    var committed := fl.steps + CommitSteps(fl.txn, io);
    if io.Torn? && fl.txn.pending != [] then Abort(st, committed, fl.incs, DeviceFailure)
    else
      var registered := committed + RegisterSteps(fl.regs);
      if cid in st.reg.capsules then Abort(st, registered + CleanupSteps(fl.regs), fl.incs, CapsuleCollision)
      else Program(registered + [CreateStep(cid, Capsule(size, fl.ids, policy))], Ok(cid))
  }

  /** How far the arrived indices reach without a gap. */
  function Reach(arrived: set<nat>, from: nat, total: nat): (k: nat)
    requires from <= total
    ensures from <= k <= total && (k < total ==> k !in arrived) && forall i :: from <= i < k ==> i in arrived
    decreases total - from
  {
    if from < total && from in arrived then Reach(arrived, from + 1, total) else from
  }

  /** The error of the lowest-numbered task that failed. */
  function TaskError(preps: seq<Result<Prepared>>): Error {
    if preps == [] then ExitedEarly else if preps[0].Err? then preps[0].error else TaskError(preps[1..])
  }

  function Values(preps: seq<Result<Prepared>>): seq<Prepared>
    requires forall i :: 0 <= i < |preps| ==> preps[i].Ok?
  {
    seq(|preps|, i requires 0 <= i < |preps| => preps[i].value)
  }

  /** Only prepared chunks arrive, each once, in any order; some may never arrive. */
  predicate Arrivals(preps: seq<Result<Prepared>>, arrivals: seq<nat>) {
    && (forall i :: 0 <= i < |arrivals| ==> arrivals[i] < |preps| && preps[arrivals[i]].Ok?)
    && (forall i, j :: 0 <= i < j < |arrivals| ==> arrivals[i] != arrivals[j])
  }

  function ArrivedSet(arrivals: seq<nat>): set<nat> { set i | i in arrivals }

  lemma ReachedOk(preps: seq<Result<Prepared>>, arrivals: seq<nat>)
    requires Arrivals(preps, arrivals)
    ensures forall i :: 0 <= i < Reach(ArrivedSet(arrivals), 0, |preps|) ==> preps[i].Ok?
  {
    forall i | 0 <= i < Reach(ArrivedSet(arrivals), 0, |preps|) ensures preps[i].Ok? {
      assert i in ArrivedSet(arrivals);
    }
  }

  function AsyncWrite(st: Store, cid: CapsuleId, size: nat, policy: Policy, preps: seq<Result<Prepared>>,
                      arrivals: seq<nat>, io: Io): Program
    requires Arrivals(preps, arrivals)
  {
    if preps == [] then
      if cid in st.reg.capsules then Program([], Err(CapsuleCollision))
      else Program([CreateStep(cid, Capsule(0, [], policy))], Ok(cid))
    else
      var k := Reach(ArrivedSet(arrivals), 0, |preps|);
      ReachedOk(preps, arrivals);
      var fl := CommitLoop(st, policy.dedupe, Values(preps[..k]));
      if fl.error.Some? then Abort(st, fl.steps + [MoveNextStep(fl.txn.base)], fl.incs, fl.error.value)
      else if k < |preps| then Abort(st, fl.steps + [MoveNextStep(fl.txn.base)], fl.incs, TaskError(preps))
      else CommitFlight(st, cid, size, policy, fl, io)
  }

  /** When every task delivers, the order of delivery leaves no gap. */
  lemma {:induction false} FullArrivalReaches(preps: seq<Result<Prepared>>, arrivals: seq<nat>)
    requires Arrivals(preps, arrivals) && |arrivals| == |preps|
    ensures Reach(ArrivedSet(arrivals), 0, |preps|) == |preps|
  {
    DistinctSize(arrivals);
    assert ArrivedSet(arrivals) <= Below(|preps|);
    SubsetOfSameSize(ArrivedSet(arrivals), Below(|preps|));
  }

  function Below(n: nat): (s: set<nat>)
    ensures |s| == n && forall i: nat :: i in s <==> i < n
  {
    if n == 0 then {} else Below(n - 1) + {n - 1}
  }

  lemma {:induction false} DistinctSize(s: seq<nat>)
    requires forall i, j :: 0 <= i < j < |s| ==> s[i] != s[j]
    ensures |ArrivedSet(s)| == |s|
  {
    if s != [] {
      var init := s[..|s| - 1];
      DistinctSize(init);
      assert ArrivedSet(s) == ArrivedSet(init) + {s[|s| - 1]};
    }
  }

  lemma SubsetOfSameSize(a: set<nat>, b: set<nat>)
    requires a <= b && |a| == |b|
    ensures a == b
  {
    assert b == a + (b - a);
  }

  // ---------------------------------------------------------------- what the loop keeps

  /** A staged segment is ready to be published. */
  predicate PendingOk(env: Env, p: Pending, nextId: nat) {
    && p.segment.id < nextId
    && (p.segment.deduplicated <==> p.segment.refCount > 1)
    && p.segment.refCount <= U32_MAX
    && PendingHashed(env, p)
  }

  /** The deferred registrations are the staged segments, in order. */
  predicate Listed(dedupe: bool, pending: seq<Pending>, regs: seq<(ContentHash, SegmentId)>) {
    if dedupe then
      && |regs| == |pending|
      && forall i :: 0 <= i < |regs| ==>
        pending[i].segment.contentHash == Some(regs[i].0) && pending[i].segment.id == regs[i].1
    else
      regs == [] && forall i :: 0 <= i < |pending| ==> pending[i].segment.contentHash == None
  }

  /** The staged map holds exactly the deferred registrations, none of which the registry knows. */
  predicate StagedMap(staged: map<ContentHash, SegmentId>, regs: seq<(ContentHash, SegmentId)>, content: map<ContentHash, SegmentId>) {
    && (forall i :: 0 <= i < |regs| ==> regs[i].0 in staged && staged[regs[i].0] == regs[i].1)
    && (forall h :: h in staged ==> h !in content && exists i :: 0 <= i < |regs| && regs[i] == (h, staged[h]))
    && (forall i, j :: 0 <= i < j < |regs| ==> regs[i].0 != regs[j].0)
  }

  /** Nothing but counts, flags and access counts differs. */
  predicate SameRecords(l: Log, l': Log) {
    && l'.segs.Keys == l.segs.Keys
    && forall id :: id in l.segs ==>
      l'.segs[id] == l.segs[id].(refCount := l'.segs[id].refCount, deduplicated := l'.segs[id].deduplicated,
                                 accessCount := l'.segs[id].accessCount)
  }

  predicate TxnBook(env: Env, l: Log, t: Txn, nextId: nat, dedupe: bool, regs: seq<(ContentHash, SegmentId)>) {
    && Staged(l, t)
    && (forall i :: 0 <= i < |t.pending| ==> PendingOk(env, t.pending[i], nextId))
    && Listed(dedupe, t.pending, regs)
  }

  ghost predicate FlightBook(env: Env, st: Store, dedupe: bool, fl: Flight) {
    && fl.txn.base == st.log.next && fl.st.log.next == fl.txn.cur
    && TxnBook(env, fl.st.log, fl.txn, fl.st.reg.nextId, dedupe, fl.regs)
    && StagedMap(fl.staged, fl.regs, st.reg.content)
    && multiset(fl.ids) == multiset(fl.incs) + PendingRefs(fl.txn.pending)
    && (!dedupe ==> fl.incs == [])
    && fl.st.log.file == st.log.file && SameRecords(st.log, fl.st.log)
    && fl.st.reg == st.reg.(nextId := fl.st.reg.nextId)
  }

  ghost predicate FlightInv(env: Env, st: Store, f: multiset<SegmentId>, dedupe: bool, fl: Flight) {
    && fl.error.None?
    && Takes(env, st, f, fl.steps, fl.st, f + multiset(fl.incs))
    && Inv(env, fl.st, f + multiset(fl.incs))
    && Quiet(fl.steps)
    && FlightBook(env, st, dedupe, fl)
  }

  lemma TakeOffOk(env: Env, st: Store, f: multiset<SegmentId>, dedupe: bool)
    requires Inv(env, st, f)
    ensures FlightInv(env, st, f, dedupe, TakeOff(st))
  {
    LogOkClear(st.log);
    assert f + multiset([]) == f;
  }

  lemma FlightRoom(env: Env, st: Store, f: multiset<SegmentId>, fl: Flight)
    requires Inv(env, st, f) && FlightInv(env, st, f, true, fl) && Room(st.log, |fl.ids| + 1)
    ensures Room(fl.st.log, 1)
  {
    hide Takes, Quiet, Room, TxnBook, StagedMap, SameRecords, LogOk, Hashed;
    assert |multiset(fl.ids)| == |fl.ids| && |multiset(fl.incs)| == |fl.incs|;
    RoomShrinks(st.log, |fl.ids| + 1, |fl.incs| + 1);
    RoomLeft(st, f, fl.st, multiset(fl.incs), 1);
  }

  lemma RoomShrinks(l: Log, n: nat, m: nat)
    requires Room(l, n) && m <= n
    ensures Room(l, m)
  {
  }

  lemma StoreHitOk(env: Env, st: Store, f: multiset<SegmentId>, fl: Flight, id: SegmentId)
    requires Inv(env, st, f) && FlightInv(env, st, f, true, fl) && Room(st.log, |fl.ids| + 1)
    requires id in fl.st.log.segs
    ensures FlightInv(env, st, f, true, StoreHit(fl, id))
  {
    var held, s := f + multiset(fl.incs), IncStep(id);
    FlightRoom(env, st, f, fl);
    assert f + multiset(fl.incs + [id]) == held + multiset{id};
    StoreHitTakes(env, st, f, fl, id, held);
    StoreHitBook(env, st, fl, id);
  }

  lemma StoreHitTakes(env: Env, st: Store, f: multiset<SegmentId>, fl: Flight, id: SegmentId, held: multiset<SegmentId>)
    requires Takes(env, st, f, fl.steps, fl.st, held) && Inv(env, fl.st, held) && Quiet(fl.steps)
    requires id in fl.st.log.segs && fl.st.log.segs[id].refCount < U32_MAX
    ensures var steps := fl.steps + [IncStep(id)]; var st' := Do(fl.st, IncStep(id));
            Takes(env, st, f, steps, st', held + multiset{id}) && Inv(env, st', held + multiset{id}) && Quiet(steps)
  {
    hide Takes, Inv, Quiet;
    QuietStep(env, st, f, fl.steps, fl.st, held, IncStep(id));
  }

  lemma StoreHitBook(env: Env, st: Store, fl: Flight, id: SegmentId)
    requires FlightBook(env, st, true, fl) && id in fl.st.log.segs
    ensures FlightBook(env, st, true, StoreHit(fl, id))
  {
    hide TxnBook, StagedMap, PendingRefs;
    StagedSameKeys(env, fl, id);
    assert multiset(fl.ids + [id]) == multiset(fl.ids) + multiset{id};
    assert multiset(fl.incs + [id]) == multiset(fl.incs) + multiset{id};
  }

  lemma StagedSameKeys(env: Env, fl: Flight, id: SegmentId)
    requires TxnBook(env, fl.st.log, fl.txn, fl.st.reg.nextId, true, fl.regs) && id in fl.st.log.segs
    ensures TxnBook(env, Increment(fl.st.log, id), fl.txn, fl.st.reg.nextId, true, fl.regs)
  {
  }

  /** Replacing the entry of one staged segment by one with another count. */
  lemma {:induction false} ReviseRefs(pending: seq<Pending>, i: nat, s: Segment)
    requires i < |pending| && s.id == pending[i].segment.id && s.refCount == pending[i].segment.refCount + 1
    ensures PendingRefs(pending[i := pending[i].(segment := s)]) == PendingRefs(pending) + multiset{s.id}
  {
    var n, revised := |pending| - 1, pending[i := pending[i].(segment := s)];
    if i == n {
      assert revised[..n] == pending[..n];
      assert Copies(s.id, s.refCount) == Copies(s.id, s.refCount - 1) + multiset{s.id};
    } else {
      ReviseRefs(pending[..n], i, s);
      assert revised[..n] == pending[..n][i := pending[i].(segment := s)];
    }
  }

  lemma StageHitOk(env: Env, st: Store, f: multiset<SegmentId>, fl: Flight, h: ContentHash)
    requires FlightInv(env, st, f, true, fl) && |fl.ids| + 1 <= U32_MAX && h in fl.staged
    ensures FlightInv(env, st, f, true, StageHit(fl, fl.staged[h]))
  {
    var id := fl.staged[h];
    var pending := fl.txn.pending;
    var i :| 0 <= i < |fl.regs| && fl.regs[i] == (h, id);
    assert pending[i].segment.id == id;
    var j := Find(pending, id).value;
    assert j == i;
    PendingRefsAt(pending, id);
    assert PendingRefs(pending) <= multiset(fl.ids);
    CountAtMostSize(multiset(fl.ids), id);
    assert pending[i].segment.refCount < U32_MAX;
    ReviseRefs(pending, i, Restaged(pending[i].segment));
    hide Takes, Inv, FlightBook, PendingRefs;
    StageHitBook(env, st, fl, id, i);
  }

  lemma StageHitBook(env: Env, st: Store, fl: Flight, id: SegmentId, i: nat)
    requires FlightBook(env, st, true, fl)
    requires i < |fl.txn.pending| && fl.txn.pending[i].segment.id == id && Find(fl.txn.pending, id) == Some(i)
    requires var s := Restaged(fl.txn.pending[i].segment);
             PendingRefs(fl.txn.pending[i := fl.txn.pending[i].(segment := s)]) == PendingRefs(fl.txn.pending) + multiset{id}
    ensures FlightBook(env, st, true, StageHit(fl, id))
  {
    hide PendingRefs, StagedMap, SameRecords;
    var fl' := StageHit(fl, id);
    assert multiset(fl'.ids) == multiset(fl.ids) + multiset{id};
    assert PendingHashed(env, fl.txn.pending[i]);
    forall j | 0 <= j < |fl'.txn.pending| ensures PendingOk(env, fl'.txn.pending[j], fl'.st.reg.nextId) {
      assert PendingOk(env, fl.txn.pending[j], fl.st.reg.nextId);
    }
  }

  lemma StageNewOk(env: Env, st: Store, f: multiset<SegmentId>, dedupe: bool, fl: Flight, p: Prepared)
    requires FlightInv(env, st, f, dedupe, fl) && Sealed(env, p) && |p.data| <= U32_MAX
    requires dedupe ==> p.hash !in fl.staged && p.hash !in st.reg.content
    ensures FlightInv(env, st, f, dedupe, StageNew(fl, dedupe, p))
  {
    hide FlightBook, StageNew, Do, Clear, Sealed, Inv, Takes, Quiet;
    var fl', held := StageNew(fl, dedupe, p), f + multiset(fl.incs);
    FlightClear(env, st, dedupe, fl, |p.data|);
    StageNewBook(env, st, f, dedupe, fl, p);
    StageNewParts(fl, dedupe, p);
    StageNewTakes(env, st, f, fl.steps, fl.st, held, fl.txn.cur + |p.data|);
    FlightIs(env, st, f, dedupe, fl', fl'.steps, fl'.st, held);
  }

  lemma FlightIs(env: Env, st: Store, f: multiset<SegmentId>, dedupe: bool, fl: Flight, steps: seq<Step>, st1: Store, held: multiset<SegmentId>)
    requires fl.error.None? && fl.steps == steps && fl.st == st1 && held == f + multiset(fl.incs)
    requires Takes(env, st, f, steps, st1, held) && Inv(env, st1, held) && Quiet(steps) && FlightBook(env, st, dedupe, fl)
    ensures FlightInv(env, st, f, dedupe, fl)
  {
  }

  lemma FlightClear(env: Env, st: Store, dedupe: bool, fl: Flight, len: nat)
    requires FlightBook(env, st, dedupe, fl)
    ensures Clear(fl.st.log, fl.txn.cur + len)
  {
  }

  lemma FreshId(env: Env, st: Store, f: multiset<SegmentId>)
    requires Inv(env, st, f)
    ensures st.reg.nextId !in st.log.segs
  {
  }

  lemma StageNewTakes(env: Env, st: Store, f: multiset<SegmentId>, steps: seq<Step>, st1: Store, held: multiset<SegmentId>, next: nat)
    requires Takes(env, st, f, steps, st1, held) && Inv(env, st1, held) && Quiet(steps) && Clear(st1.log, next)
    ensures Takes(env, st, f, steps + [AllocStep, MoveNextStep(next)], Do(Do(st1, AllocStep), MoveNextStep(next)), held)
    ensures Inv(env, Do(Do(st1, AllocStep), MoveNextStep(next)), held) && Quiet(steps + [AllocStep, MoveNextStep(next)])
  {
    hide Takes, Inv, Clear, Quiet;
    var st2 := Do(st1, AllocStep);
    assert st2.log == st1.log;
    QuietStep(env, st, f, steps, st1, held, AllocStep);
    assert Allowed(env, st2, held, MoveNextStep(next));
    QuietStep(env, st, f, steps + [AllocStep], st2, held, MoveNextStep(next));
    assert steps + [AllocStep] + [MoveNextStep(next)] == steps + [AllocStep, MoveNextStep(next)];
  }

  function NewEntry(fl: Flight, dedupe: bool, p: Prepared): Pending {
    Pending(Tagged(FreshSegment(fl.st.reg.nextId, fl.txn.cur, |p.data|), p, dedupe), p.data)
  }

  lemma StageNewBook(env: Env, st: Store, f: multiset<SegmentId>, dedupe: bool, fl: Flight, p: Prepared)
    requires FlightBook(env, st, dedupe, fl) && Inv(env, fl.st, f + multiset(fl.incs)) && Sealed(env, p) && |p.data| <= U32_MAX
    requires dedupe ==> p.hash !in fl.staged && p.hash !in st.reg.content
    ensures FlightBook(env, st, dedupe, StageNew(fl, dedupe, p))
  {
    var e, fl' := NewEntry(fl, dedupe, p), StageNew(fl, dedupe, p);
    FreshId(env, fl.st, f + multiset(fl.incs));
    TxnBookIds(env, fl, dedupe);
    hide Inv, TxnBook, StagedMap, PendingRefs, Sealed, SameRecords, NewEntry, StageNew, PendingOk;
    StageNewEntry(env, fl, dedupe, p);
    StageNewParts(fl, dedupe, p);
    TxnBookGrows(env, fl.st.log, fl.txn, fl.st.reg.nextId, dedupe, fl.regs, e);
    StagedSameSegs(env, fl.st.log, fl'.st.log, fl'.txn, fl'.st.reg.nextId, dedupe, fl'.regs);
    StagedMapGrows(fl.staged, fl.regs, st.reg.content, p.hash, fl.st.reg.nextId);
    StageNewCounts(fl, e);
    SameRecordsNext(st.log, fl.st.log, fl'.st.log);
  }

  lemma StageNewParts(fl: Flight, dedupe: bool, p: Prepared)
    ensures var fl', id := StageNew(fl, dedupe, p), fl.st.reg.nextId;
            && fl'.st.log == fl.st.log.(next := fl.txn.cur + |p.data|)
            && fl'.st.reg == fl.st.reg.(nextId := id + 1)
            && fl'.staged == (if dedupe then fl.staged[p.hash := id] else fl.staged)
            && fl'.regs == (if dedupe then fl.regs + [(p.hash, id)] else fl.regs)
            && fl'.incs == fl.incs && fl'.ids == fl.ids + [id] && fl'.error == None
            && fl'.steps == fl.steps + [AllocStep, MoveNextStep(fl.txn.cur + |p.data|)]
            && fl'.st == Do(Do(fl.st, AllocStep), MoveNextStep(fl.txn.cur + |p.data|))
  {
  }

  lemma SameRecordsNext(l0: Log, l: Log, l': Log)
    requires SameRecords(l0, l) && l'.segs == l.segs
    ensures SameRecords(l0, l')
  {
  }

  lemma StagedSameSegs(env: Env, l: Log, l': Log, t: Txn, nextId: nat, dedupe: bool, regs: seq<(ContentHash, SegmentId)>)
    requires TxnBook(env, l, t, nextId, dedupe, regs) && l'.segs == l.segs
    ensures TxnBook(env, l', t, nextId, dedupe, regs)
  {
  }

  lemma TxnBookIds(env: Env, fl: Flight, dedupe: bool)
    requires TxnBook(env, fl.st.log, fl.txn, fl.st.reg.nextId, dedupe, fl.regs)
    ensures forall i :: 0 <= i < |fl.txn.pending| ==> fl.txn.pending[i].segment.id != fl.st.reg.nextId
  {
    forall i | 0 <= i < |fl.txn.pending| ensures fl.txn.pending[i].segment.id != fl.st.reg.nextId {
      assert PendingOk(env, fl.txn.pending[i], fl.st.reg.nextId);
    }
  }

  lemma TxnBookGrows(env: Env, l: Log, t: Txn, nextId: nat, dedupe: bool, regs: seq<(ContentHash, SegmentId)>, e: Pending)
    requires TxnBook(env, l, t, nextId, dedupe, regs) && nextId !in l.segs
    requires e.segment.id == nextId && PendingOk(env, e, nextId + 1)
    requires e.segment.offset == t.cur && e.segment.len == |e.data|
    requires if dedupe then e.segment.contentHash.Some? else e.segment.contentHash == None
    ensures TxnBook(env, l, t.(pending := t.pending + [e], cur := t.cur + |e.data|), nextId + 1, dedupe,
                    if dedupe then regs + [(e.segment.contentHash.value, nextId)] else regs)
  {
    forall i | 0 <= i < |t.pending|
      ensures PendingOk(env, t.pending[i], nextId + 1) && t.pending[i].segment.id != nextId
    {
      assert PendingOk(env, t.pending[i], nextId);
    }
  }

  lemma StagedMapGrows(staged: map<ContentHash, SegmentId>, regs: seq<(ContentHash, SegmentId)>,
                       content: map<ContentHash, SegmentId>, h: ContentHash, id: SegmentId)
    requires StagedMap(staged, regs, content)
    ensures h !in staged && h !in content ==> StagedMap(staged[h := id], regs + [(h, id)], content)
  {
    if h !in staged && h !in content {
      forall g {:trigger staged[h := id][g]} | g in staged[h := id]
        ensures exists i :: 0 <= i < |regs + [(h, id)]| && (regs + [(h, id)])[i] == (g, staged[h := id][g])
      {
        if g == h {
          assert (regs + [(h, id)])[|regs|] == (h, id);
        } else {
          var i :| 0 <= i < |regs| && regs[i] == (g, staged[g]);
          assert (regs + [(h, id)])[i] == (g, staged[g]);
        }
      }
    }
  }

  lemma StageNewCounts(fl: Flight, e: Pending)
    requires multiset(fl.ids) == multiset(fl.incs) + PendingRefs(fl.txn.pending) && e.segment.refCount == 1
    ensures multiset(fl.ids + [e.segment.id]) == multiset(fl.incs) + PendingRefs(fl.txn.pending + [e])
  {
    assert (fl.txn.pending + [e])[..|fl.txn.pending|] == fl.txn.pending;
    assert Copies(e.segment.id, 1) == multiset{e.segment.id};
  }

  /** Staging and then tagging a new segment appends the tagged entry. */
  lemma StageNewEntry(env: Env, fl: Flight, dedupe: bool, p: Prepared)
    requires Sealed(env, p) && forall i :: 0 <= i < |fl.txn.pending| ==> fl.txn.pending[i].segment.id != fl.st.reg.nextId
    ensures var id := fl.st.reg.nextId;
            var e := NewEntry(fl, dedupe, p);
            && StageNew(fl, dedupe, p).txn == fl.txn.(pending := fl.txn.pending + [e], cur := fl.txn.cur + |p.data|)
            && e.segment.id == id && e.segment.offset == fl.txn.cur && e.data == p.data && e.segment.refCount == 1
            && e.segment.contentHash == (if dedupe then Some(p.hash) else None)
            && (|p.data| <= U32_MAX ==> e.segment.len == |e.data|)
            && PendingOk(env, e, id + 1)
  {
    var id := fl.st.reg.nextId;
    var staged := Stage(fl.txn, id, p.data).pending;
    assert Find(staged, id) == Some(|fl.txn.pending|) by {
      assert staged[..|staged| - 1] == fl.txn.pending;
    }
  }

  lemma FlightContent(env: Env, st: Store, f: multiset<SegmentId>, dedupe: bool, fl: Flight)
    requires FlightInv(env, st, f, dedupe, fl)
    ensures fl.error.None? && fl.st.reg.content == st.reg.content
    ensures forall h :: h in fl.st.reg.content ==> fl.st.reg.content[h] in fl.st.log.segs
  {
  }

  lemma FlightOk(env: Env, st: Store, f: multiset<SegmentId>, dedupe: bool, fl: Flight)
    requires FlightInv(env, st, f, dedupe, fl)
    ensures fl.error.None?
  {
  }

  lemma HitsGrow(fl: Flight, dedupe: bool, p: Prepared)
    ensures |StageNew(fl, dedupe, p).ids| == |fl.ids| + 1
    ensures forall id :: StageHit(fl, id).error.None? ==> |StageHit(fl, id).ids| == |fl.ids| + 1
    ensures forall id :: StoreHit(fl, id).error.None? ==> |StoreHit(fl, id).ids| == |fl.ids| + 1
  {
  }

  lemma CommitSegmentOk(env: Env, st: Store, f: multiset<SegmentId>, dedupe: bool, fl: Flight, p: Prepared)
    requires Inv(env, st, f) && FlightInv(env, st, f, dedupe, fl) && Sealed(env, p) && |p.data| <= U32_MAX
    requires Room(st.log, |fl.ids| + 1)
    ensures FlightInv(env, st, f, dedupe, CommitSegment(fl, dedupe, p))
    ensures |CommitSegment(fl, dedupe, p).ids| == |fl.ids| + 1
  {
    FlightContent(env, st, f, dedupe, fl);
    hide FlightInv, Sealed, Refs, StageNew, StageHit, StoreHit;
    HitsGrow(fl, dedupe, p);
    if dedupe && p.hash in fl.staged {
      StageHitOk(env, st, f, fl, p.hash);
    } else if dedupe && p.hash in fl.st.reg.content {
      StoreHitOk(env, st, f, fl, fl.st.reg.content[p.hash]);
    } else {
      StageNewOk(env, st, f, dedupe, fl, p);
    }
    FlightOk(env, st, f, dedupe, CommitSegment(fl, dedupe, p));
  }

  lemma {:induction false} CommitLoopOk(env: Env, st: Store, f: multiset<SegmentId>, dedupe: bool, preps: seq<Prepared>)
    requires Inv(env, st, f) && Room(st.log, |preps|)
    requires forall i :: 0 <= i < |preps| ==> Sealed(env, preps[i]) && |preps[i].data| <= U32_MAX
    ensures FlightInv(env, st, f, dedupe, CommitLoop(st, dedupe, preps)) && |CommitLoop(st, dedupe, preps).ids| == |preps|
  {
    if preps == [] {
      TakeOffOk(env, st, f, dedupe);
    } else {
      hide Inv, FlightInv, CommitSegment, Sealed, Refs;
      CommitLoopOk(env, st, f, dedupe, preps[..|preps| - 1]);
      CommitSegmentOk(env, st, f, dedupe, CommitLoop(st, dedupe, preps[..|preps| - 1]), preps[|preps| - 1]);
    }
  }
}
