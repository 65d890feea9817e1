/** The main results about the asynchronous write. */
module AsyncMain {
  import opened Types
  import opened Codec
  import opened NvramSim
  import opened Registry
  import opened Store
  import opened Programs
  import opened AsyncWrite
  import opened AsyncCommit
  import opened AsyncCorrect
  import opened Refinement

  /** Preparation guaranteed something of every chunk that came through. */
  predicate SoundResults(env: Env, results: seq<Result<Prepared>>) {
    forall i :: 0 <= i < |results| && results[i].Ok? ==> Sealed(env, results[i].value) && |results[i].value.data| <= U32_MAX
  }

  /** The flight that the given arrivals commit, and how far it got. */
  function FlightOf(st: Store, dedupe: bool, results: seq<Result<Prepared>>, arrivals: seq<nat>): Flight
    requires Arrivals(results, arrivals)
  {
    ReachedOk(results, arrivals);
    CommitLoop(st, dedupe, Values(results[..Reach(ArrivedSet(arrivals), 0, |results|)]))
  }

  lemma FlightOfOk(env: Env, st: Store, f: multiset<SegmentId>, dedupe: bool, results: seq<Result<Prepared>>, arrivals: seq<nat>)
    requires Inv(env, st, f) && Room(st.log, |results|)
    requires SoundResults(env, results) && Arrivals(results, arrivals)
    ensures var fl := FlightOf(st, dedupe, results, arrivals);
            FlightInv(env, st, f, dedupe, fl) && |fl.ids| == Reach(ArrivedSet(arrivals), 0, |results|)
  {
    hide Inv, FlightInv, Sealed, CommitLoop, Refs;
    ReachedOk(results, arrivals);
    CommitLoopOk(env, st, f, dedupe, Values(results[..Reach(ArrivedSet(arrivals), 0, |results|)]));
  }

  /** Every chunk arrived. */
  predicate Complete(results: seq<Result<Prepared>>, arrivals: seq<nat>) {
    Reach(ArrivedSet(arrivals), 0, |results|) == |results|
  }

  lemma CreateLands(env: Env, st: Store, f: multiset<SegmentId>, dedupe: bool, fl: Flight, cid: CapsuleId, c: Capsule)
    requires Inv(env, st, f) && FlightInv(env, st, f, dedupe, fl)
    requires cid !in st.reg.capsules && c.segments == fl.ids
    ensures cid !in Landed(fl).reg.capsules && Allowed(env, Landed(fl), f + multiset(fl.ids), CreateStep(cid, c))
    ensures var steps := LandedSteps(fl) + [CreateStep(cid, c)]; var st' := Do(Landed(fl), CreateStep(cid, c));
            Takes(env, st, f, steps, st', f) && Inv(env, st', f)
  {
    hide Inv, FlightInv, LandedSteps, Landed, AsyncCommit.Cleanable, Refs;
    LandedLeads(env, st, f, dedupe, fl);
    FlightLeads(env, st, f, dedupe, fl);
    LandedCleanable(env, st, f, dedupe, fl);
    var held, s := f + multiset(fl.ids), CreateStep(cid, c);
    TakesStep(env, st, f, LandedSteps(fl), Landed(fl), held, s);
    StepKeepsInv(env, Landed(fl), held, s);
    assert held - multiset(fl.ids) == f;
  }

  /** Everything was committed and registered, and then the capsule id turned out to be taken. */
  predicate Refused(st: Store, cid: CapsuleId, policy: Policy, results: seq<Result<Prepared>>, arrivals: seq<nat>, io: Io)
    requires Arrivals(results, arrivals)
  {
    && Complete(results, arrivals) && cid in st.reg.capsules
    && (io.Good? || FlightOf(st, policy.dedupe, results, arrivals).txn.pending == [])
  }

  /** What the write holds when it ends: nothing more than before, except that a refused capsule id with
      dedupe off leaves the new segments held. */
  function HeldAtEnd(st: Store, f: multiset<SegmentId>, cid: CapsuleId, policy: Policy, results: seq<Result<Prepared>>,
                     arrivals: seq<nat>, io: Io): multiset<SegmentId>
    requires Arrivals(results, arrivals)
  {
    if Refused(st, cid, policy, results, arrivals, io) && !policy.dedupe
    then f + multiset(FlightOf(st, policy.dedupe, results, arrivals).ids) else f
  }

  /** Task `n` is the first that failed. */
  predicate FirstFailed(results: seq<Result<Prepared>>, n: nat) {
    n < |results| && results[n].Err? && forall i :: 0 <= i < n ==> results[i].Ok?
  }

  /** What a failed write reports: the error of the first task that failed; if none did, that a chunk got lost; if none did,
      that the log could not be written; and else that the id was taken. */
  ghost predicate Reports(st: Store, policy: Policy, results: seq<Result<Prepared>>, arrivals: seq<nat>, io: Io, e: Error)
    requires Arrivals(results, arrivals)
  {
    && (forall n: nat :: FirstFailed(results, n) ==> e == results[n].error)
    && ((forall i :: 0 <= i < |results| ==> results[i].Ok?) ==>
          e == if !Complete(results, arrivals) then ExitedEarly
               else if io.Torn? && FlightOf(st, policy.dedupe, results, arrivals).txn.pending != [] then DeviceFailure
               else CapsuleCollision)
  }

  lemma {:induction false} FirstError(results: seq<Result<Prepared>>, n: nat)
    requires FirstFailed(results, n)
    ensures TaskError(results) == results[n].error
    decreases n
  {
    if n > 0 {
      assert forall i :: 0 <= i < n - 1 ==> results[1..][i] == results[i + 1];
      FirstError(results[1..], n - 1);
    }
  }

  lemma {:induction false} NoError(results: seq<Result<Prepared>>)
    requires forall i :: 0 <= i < |results| ==> results[i].Ok?
    ensures TaskError(results) == ExitedEarly
  {
    if results != [] { NoError(results[1..]); }
  }

  lemma CompleteOk(results: seq<Result<Prepared>>, arrivals: seq<nat>)
    requires Arrivals(results, arrivals) && Complete(results, arrivals)
    ensures forall i :: 0 <= i < |results| ==> results[i].Ok?
  {
    ReachedOk(results, arrivals);
  }

  lemma EmptyWriteOk(env: Env, st: Store, f: multiset<SegmentId>, cid: CapsuleId, policy: Policy, arrivals: seq<nat>, io: Io)
    requires Inv(env, st, f) && Arrivals([], arrivals)
    ensures var w := AsyncWrite.AsyncWrite(st, cid, 0, policy, [], arrivals, io); var st' := Run(st, w.steps);
            && Takes(env, st, f, w.steps, st', f) && Inv(env, st', f)
            && (w.outcome.Err? ==> w.outcome == Err(CapsuleCollision) && cid in st.reg.capsules && w.steps == [] && st' == st)
            && (w.outcome.Ok? ==> w.steps == [CreateStep(cid, Capsule(0, [], policy))] && st' == Do(st, w.steps[0]))
  {
    var s := CreateStep(cid, Capsule(0, [], policy));
    if cid !in st.reg.capsules {
      assert multiset(s.capsule.segments) == multiset{};
      TakesOne(env, st, f, s);
      StepKeepsInv(env, st, f, s);
      RunOne(st, s);
      assert f - multiset{} == f;
    }
  }

  /** A failed asynchronous write: every step was allowed and touched no capsule; the counts are exact; and
      the store is restored, with its allocator, unless the capsule id was refused after the commit, when it
      is restored exactly if dedupe is on. And what it reports is why it failed. */
  lemma AsyncFailureExact(env: Env, st: Store, f: multiset<SegmentId>, cid: CapsuleId, size: nat, policy: Policy,
                          results: seq<Result<Prepared>>, arrivals: seq<nat>, io: Io)
    requires Inv(env, st, f) && Room(st.log, |results|) && results != []
    requires SoundResults(env, results) && Arrivals(results, arrivals)
    ensures var w := AsyncWrite.AsyncWrite(st, cid, size, policy, results, arrivals, io); var st' := Run(st, w.steps);
            var refused := Refused(st, cid, policy, results, arrivals, io);
            w.outcome.Err? ==>
              && Leads(env, st, f, w.steps, st', HeldAtEnd(st, f, cid, policy, results, arrivals, io))
              && (!refused ==> Restored(st, st') && Truncated(st.log, st'.log))
              && (refused ==> (Restored(st, st') <==> policy.dedupe))
              && (refused && !policy.dedupe ==> st' == Landed(FlightOf(st, policy.dedupe, results, arrivals)))
              && Reports(st, policy, results, arrivals, io, w.outcome.error)
  {
    hide Inv, FlightInv, Leads, Restored, Truncated, CommitLoop, Sealed, Refs, Abort, CleanupSteps, TaskError;
    FlightOfOk(env, st, f, policy.dedupe, results, arrivals);
    var fl := FlightOf(st, policy.dedupe, results, arrivals);
    FlightOk(env, st, f, policy.dedupe, fl);
    if Complete(results, arrivals) {
      CompleteOk(results, arrivals);
      assert forall n: nat :: !FirstFailed(results, n);
    }
    if !Complete(results, arrivals) {
      RollbackExact(env, st, f, policy.dedupe, fl, TaskError(results));
      forall n: nat | FirstFailed(results, n) ensures TaskError(results) == results[n].error { FirstError(results, n); }
      if forall i :: 0 <= i < |results| ==> results[i].Ok? { NoError(results); }
    } else if io.Torn? && fl.txn.pending != [] {
      TornCommitExact(env, st, f, policy.dedupe, fl, io.entries, io.bytes);
    } else if cid in st.reg.capsules {
      CommitGoodSteps(fl, io);
      if policy.dedupe {
        CollisionExact(env, st, f, fl);
      } else {
        StagedWithoutDedupe(env, st, f, fl);
        CollisionLeaks(env, st, f, fl);
        NotRestored(st, Run(st, AsyncWrite.AsyncWrite(st, cid, size, policy, results, arrivals, io).steps), fl.txn.pending[0].segment.id);
      }
    }
  }

  lemma CommitGoodSteps(fl: Flight, io: Io)
    requires io.Good? || fl.txn.pending == []
    ensures fl.steps + CommitSteps(fl.txn, io) + RegisterSteps(fl.regs) == LandedSteps(fl)
  {
  }

  lemma StagedWithoutDedupe(env: Env, st: Store, f: multiset<SegmentId>, fl: Flight)
    requires FlightInv(env, st, f, false, fl) && fl.ids != []
    ensures fl.txn.pending != []
  {
    assert fl.ids[0] in multiset(fl.ids);
  }

  lemma NotRestored(a: Store, b: Store, id: SegmentId)
    requires id in b.log.segs && id !in a.log.segs
    ensures !Restored(a, b)
  {
    assert id in b.log.segs.Keys;
  }

  /** When it succeeds: every chunk arrived and was committed, and the capsule was created last. */
  lemma AsyncSuccess(env: Env, st: Store, f: multiset<SegmentId>, cid: CapsuleId, size: nat, policy: Policy,
                     results: seq<Result<Prepared>>, arrivals: seq<nat>, io: Io)
    requires Inv(env, st, f) && Room(st.log, |results|) && results != []
    requires SoundResults(env, results) && Arrivals(results, arrivals)
    ensures var w := AsyncWrite.AsyncWrite(st, cid, size, policy, results, arrivals, io);
            var fl := FlightOf(st, policy.dedupe, results, arrivals);
            w.outcome.Ok? <==> Complete(results, arrivals) && cid !in st.reg.capsules && (io.Good? || fl.txn.pending == [])
    ensures var w := AsyncWrite.AsyncWrite(st, cid, size, policy, results, arrivals, io);
            var fl := FlightOf(st, policy.dedupe, results, arrivals); var c := Capsule(size, fl.ids, policy);
            w.outcome.Ok? ==> w.steps == LandedSteps(fl) + [CreateStep(cid, c)]
  {
    hide Inv, FlightInv, CommitLoop, Sealed, Refs, CleanupSteps, FlushSteps, RegisterSteps, Undo;
    FlightOfOk(env, st, f, policy.dedupe, results, arrivals);
    var fl := FlightOf(st, policy.dedupe, results, arrivals);
    FlightOk(env, st, f, policy.dedupe, fl);
    if io.Good? || fl.txn.pending == [] { CommitGoodSteps(fl, io); }
  }

  // ---------------------------------------------------------------- refinement

  lemma {:induction false} SameSegsRead(env: Env, a: Log, b: Log, c: Compression, ids: seq<SegmentId>)
    requires a.file == b.file && SameSegs(a.segs, b.segs)
    ensures ReadSegments(env, a, c, ids) == ReadSegments(env, b, c, ids)
  {
    if ids != [] {
      SameSegsRead(env, a, b, c, ids[..|ids| - 1]);
    }
  }

  lemma LandedAgrees(env: Env, st: Store, f: multiset<SegmentId>, dedupe: bool, r: LoopState, fl: Flight)
    requires Inv(env, st, f) && FlightInv(env, st, f, dedupe, fl) && Tracks(r, fl)
    ensures Agree(r.st.(reg := r.st.reg.(savedId := 0)), Landed(fl).(reg := Landed(fl).reg.(savedId := 0)))
  {
    hide Inv, FlightInv, FlightBook, SameRecords, Listed, PendingRefs, PendingMap, WriteAll, SameSegs, Refs;
    FlightLeads(env, st, f, dedupe, fl);
    BookFacts(env, st, dedupe, fl);
    StagedIsRegMap(fl.staged, fl.regs, st.reg.content);
    LandedContent(fl, st.reg.content);
    LandedParts(fl);
  }

  lemma LandedParts(fl: Flight)
    ensures Landed(fl).log == Log(WriteAll(fl.st.log.file, fl.txn.pending), fl.st.log.segs + PendingMap(fl.txn.pending), fl.txn.cur)
    ensures Landed(fl).reg == fl.st.reg.(content := Landed(fl).reg.content, savedId := Landed(fl).reg.savedId)
  {
  }

  lemma StagedIsRegMap(staged: map<ContentHash, SegmentId>, regs: seq<(ContentHash, SegmentId)>, content: map<ContentHash, SegmentId>)
    requires StagedMap(staged, regs, content)
    ensures RegMap(regs) == staged
  {
    RegMapContents(regs);
    forall h ensures h in staged <==> h in RegMap(regs) {
      if h in staged {
        var i :| 0 <= i < |regs| && regs[i] == (h, staged[h]);
        assert regs[i].0 in HashesOf(regs);
      }
    }
  }

  lemma AgreeAfterCreate(a: Store, b: Store, cid: CapsuleId, c: Capsule)
    requires Agree(a.(reg := a.reg.(savedId := 0)), b.(reg := b.reg.(savedId := 0))) && cid !in a.reg.capsules
    ensures Agree(Do(a, CreateStep(cid, c)), Do(b, CreateStep(cid, c)))
  {
  }

  /** Refinement: for every order in which the chunks arrive, a successful asynchronous write ends in the
      same log bytes, allocator, segment records (but for access counts), content store, capsules and next
      id, with the same segment list, as the sequential write of the same chunks, which then also succeeds. */
  lemma AsyncRefinesSync(env: Env, st: Store, f: multiset<SegmentId>, cid: CapsuleId, size: nat, policy: Policy,
                         results: seq<Result<Prepared>>, arrivals: seq<nat>, io: Io)
    requires Inv(env, st, f) && Room(st.log, |results|) && (results == [] ==> size == 0)
    requires SoundResults(env, results) && Arrivals(results, arrivals)
    ensures var a := AsyncWrite.AsyncWrite(st, cid, size, policy, results, arrivals, io);
            a.outcome.Ok? ==>
              && (forall i :: 0 <= i < |results| ==> results[i].Ok?)
              && var s := SyncWrite(st, cid, size, policy, Feeds(Values(results)));
                 s.outcome == a.outcome && Agree(Run(st, s.steps), Run(st, a.steps))
  {
    hide Inv, FlightInv, CommitLoop, WriteLoop, LandedSteps, Landed, Agree, Sealed, Refs, Tracks, LoopInv;
    if results == [] {
      EmptyWriteAgrees(env, st, f, cid, policy, arrivals, io);
    } else {
      AsyncSuccess(env, st, f, cid, size, policy, results, arrivals, io);
      if AsyncWrite.AsyncWrite(st, cid, size, policy, results, arrivals, io).outcome.Ok? {
        ReachedOk(results, arrivals);
        assert results[..|results|] == results;
        SuccessAgrees(env, st, f, cid, size, policy, Values(results));
        FlightOfOk(env, st, f, policy.dedupe, results, arrivals);
      }
    }
  }

  lemma SuccessAgrees(env: Env, st: Store, f: multiset<SegmentId>, cid: CapsuleId, size: nat, policy: Policy, preps: seq<Prepared>)
    requires Inv(env, st, f) && Room(st.log, |preps|) && cid !in st.reg.capsules
    requires forall i :: 0 <= i < |preps| ==> Sealed(env, preps[i]) && |preps[i].data| <= U32_MAX
    ensures var s := SyncWrite(st, cid, size, policy, Feeds(preps)); var fl := CommitLoop(st, policy.dedupe, preps);
            var c := CreateStep(cid, Capsule(size, fl.ids, policy));
            s.outcome == Ok(cid) && Agree(Run(st, s.steps), Run(st, LandedSteps(fl) + [c]))
  {
    hide Inv, FlightInv, CommitLoop, WriteLoop, LandedSteps, Landed, Agree, Sealed, Refs, NoZero;
    var r, fl := WriteLoop(st, policy.dedupe, Feeds(preps)), CommitLoop(st, policy.dedupe, preps);
    CommitLoopOk(env, st, f, policy.dedupe, preps);
    LoopTracks(env, st, f, policy.dedupe, preps);
    WriteLoopOk(env, st, f, policy.dedupe, Feeds(preps));
    LandedAgrees(env, st, f, policy.dedupe, r, fl);
    TracksNames(r, fl);
    LoopRuns(env, st, f, r);
    var c := CreateStep(cid, Capsule(size, fl.ids, policy));
    AgreeAfterCreate(r.st, Landed(fl), cid, c.capsule);
    LandedLeads(env, st, f, policy.dedupe, fl);
    LeadsRun(env, st, f, LandedSteps(fl), Landed(fl), f + multiset(fl.ids));
    RunSnoc(st, LandedSteps(fl), c);
    RunSnoc(st, r.steps, c);
  }

  /** A landed flight reads like the sequential loop, and has no dead segment. */
  lemma LandedReads(env: Env, st: Store, f: multiset<SegmentId>, dedupe: bool, preps: seq<Prepared>)
    requires Inv(env, st, f) && Room(st.log, |preps|)
    requires forall i :: 0 <= i < |preps| ==> Sealed(env, preps[i]) && |preps[i].data| <= U32_MAX
    ensures var r, fl := WriteLoop(st, dedupe, Feeds(preps)), CommitLoop(st, dedupe, preps);
            && r.error.None? && r.ids == fl.ids
            && ReadsSame(env, r, fl)
            && (NoZero(st.log) ==> NoZero(Landed(fl).log))
  {
    hide Inv, FlightInv, CommitLoop, WriteLoop, Landed, Agree, Sealed, Refs, NoZero, ReadsSame;
    var r, fl := WriteLoop(st, dedupe, Feeds(preps)), CommitLoop(st, dedupe, preps);
    CommitLoopOk(env, st, f, dedupe, preps);
    LoopTracks(env, st, f, dedupe, preps);
    WriteLoopOk(env, st, f, dedupe, Feeds(preps));
    LandedAgrees(env, st, f, dedupe, r, fl);
    TracksNames(r, fl);
    LoopRuns(env, st, f, r);
    AgreedReads(env, r, fl);
  }

  /** The two logs read alike. */
  ghost predicate ReadsSame(env: Env, r: LoopState, fl: Flight) {
    forall c, ids :: ReadSegments(env, Landed(fl).log, c, ids) == ReadSegments(env, r.st.log, c, ids)
  }

  lemma AgreedReads(env: Env, r: LoopState, fl: Flight)
    requires Agree(r.st.(reg := r.st.reg.(savedId := 0)), Landed(fl).(reg := Landed(fl).reg.(savedId := 0)))
    ensures ReadsSame(env, r, fl) && (NoZero(r.st.log) ==> NoZero(Landed(fl).log))
  {
    hide Landed;
    forall c, ids ensures ReadSegments(env, Landed(fl).log, c, ids) == ReadSegments(env, r.st.log, c, ids) {
      SameSegsRead(env, r.st.log, Landed(fl).log, c, ids);
    }
    if NoZero(r.st.log) {
      forall id | id in Landed(fl).log.segs ensures Landed(fl).log.segs[id].refCount > 0 {
        assert id in r.st.log.segs && r.st.log.segs[id].refCount > 0;
      }
    }
  }

  lemma TracksNames(r: LoopState, fl: Flight)
    requires Tracks(r, fl)
    ensures r.error.None? && r.ids == fl.ids
  {
  }

  lemma LoopRuns(env: Env, st: Store, f: multiset<SegmentId>, r: LoopState)
    requires LoopInv(env, st, f, r)
    ensures Run(st, r.steps) == r.st && r.st.reg.capsules == st.reg.capsules && (NoZero(st.log) ==> NoZero(r.st.log))
  {
  }

  lemma EmptyWriteAgrees(env: Env, st: Store, f: multiset<SegmentId>, cid: CapsuleId, policy: Policy, arrivals: seq<nat>, io: Io)
    requires Inv(env, st, f) && Arrivals([], arrivals)
    ensures var a, s := AsyncWrite.AsyncWrite(st, cid, 0, policy, [], arrivals, io), SyncWrite(st, cid, 0, policy, Feeds(Values([])));
            s == a && Agree(Run(st, s.steps), Run(st, a.steps))
  {
    assert Feeds(Values([])) == [];
    assert WriteLoop(st, policy.dedupe, []) == LoopState(st, [], [], None);
    assert [] + [CreateStep(cid, Capsule(0, [], policy))] == [CreateStep(cid, Capsule(0, [], policy))];
  }
}
