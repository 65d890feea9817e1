/** `WritePipeline` in the form of the source: loops over chunks, a commit loop fed by a channel, and calls on
    the log and the registry. Every method leaves the store, and returns the result, that the programs of
    `Programs`, `AsyncWrite` and `Recovery` define. */
module Pipeline {
  import opened Types
  import opened Codec
  import opened NvramSim
  import opened Registry
  import opened Store
  import opened Programs
  import opened AsyncWrite
  import opened Refinement
  import opened Recovery
  import opened Runs
  import AsyncMain

  /** The key version does not change during one call. */
  function Always(v: Option<nat>): nat -> Option<nat> { _ => v }

  // ---------------------------------------------------------------- steps and states of the programs

  lemma {:induction false} WriteLoopRuns(st: Store, dedupe: bool, feeds: seq<Feed>)
    ensures Run(st, WriteLoop(st, dedupe, feeds).steps) == WriteLoop(st, dedupe, feeds).st
  {
    if feeds != [] {
      var init := feeds[..|feeds| - 1];
      WriteLoopRuns(st, dedupe, init);
      var r := WriteLoop(st, dedupe, init);
      RunConcat(st, r.steps, WriteChunk(r.st, dedupe, feeds[|feeds| - 1]).steps);
    }
  }

  lemma {:induction false} WriteLoopStuck(st: Store, dedupe: bool, feeds: seq<Feed>, i: nat)
    requires i <= |feeds| && WriteLoop(st, dedupe, feeds[..i]).error.Some?
    ensures WriteLoop(st, dedupe, feeds) == WriteLoop(st, dedupe, feeds[..i])
  {
    if i < |feeds| {
      var init := feeds[..|feeds| - 1];
      assert init[..i] == feeds[..i];
      WriteLoopStuck(st, dedupe, init, i);
    } else {
      assert feeds[..i] == feeds;
    }
  }

  lemma WriteLoopStarts(st: Store, dedupe: bool, feeds: seq<Feed>)
    ensures WriteLoop(st, dedupe, feeds[..0]) == LoopState(st, [], [], None)
  {
  }

  lemma WriteLoopAdvances(st: Store, dedupe: bool, feeds: seq<Feed>, i: nat)
    requires i < |feeds|
    ensures WriteLoop(st, dedupe, feeds[..i + 1]) == LoopStep(WriteLoop(st, dedupe, feeds[..i]), dedupe, feeds[i])
  {
    assert feeds[..i + 1][..i] == feeds[..i];
  }

  lemma {:induction false} CommitLoopRuns(st: Store, dedupe: bool, preps: seq<Prepared>)
    ensures Run(st, CommitLoop(st, dedupe, preps).steps) == CommitLoop(st, dedupe, preps).st
  {
    if preps != [] {
      var init, p := preps[..|preps| - 1], preps[|preps| - 1];
      CommitLoopRuns(st, dedupe, init);
      CommitSegmentRuns(CommitLoop(st, dedupe, init), dedupe, p);
      var fl, fl' := CommitLoop(st, dedupe, init), CommitLoop(st, dedupe, preps);
      RunConcat(st, fl.steps, fl'.steps[|fl.steps|..]);
      assert fl'.steps == fl.steps + fl'.steps[|fl.steps|..];
    }
  }

  lemma CommitSegmentRuns(fl: Flight, dedupe: bool, p: Prepared)
    ensures var fl' := CommitSegment(fl, dedupe, p);
            |fl.steps| <= |fl'.steps| && fl'.steps[..|fl.steps|] == fl.steps && Run(fl.st, fl'.steps[|fl.steps|..]) == fl'.st
  {
    hide Revise, Stage, Tagged, Restaged, Find;
    var fl' := CommitSegment(fl, dedupe, p);
    var more := fl'.steps[|fl.steps|..];
    if fl'.steps == fl.steps {
      assert more == [];
    } else if |fl'.steps| == |fl.steps| + 1 {
      assert more == [fl'.steps[|fl.steps|]];
      RunOne(fl.st, fl'.steps[|fl.steps|]);
    } else {
      var move := MoveNextStep(fl.txn.cur + |p.data|);
      assert more == [AllocStep] + [move];
      RunConcat(fl.st, [AllocStep], [move]);
      RunOne(fl.st, AllocStep);
      RunOne(Do(fl.st, AllocStep), move);
    }
  }

  lemma {:induction false} CommitLoopStuck(st: Store, dedupe: bool, preps: seq<Prepared>, i: nat)
    requires i <= |preps| && CommitLoop(st, dedupe, preps[..i]).error.Some?
    ensures CommitLoop(st, dedupe, preps) == CommitLoop(st, dedupe, preps[..i])
  {
    if i < |preps| {
      var init := preps[..|preps| - 1];
      assert init[..i] == preps[..i];
      CommitLoopStuck(st, dedupe, init, i);
    } else {
      assert preps[..i] == preps;
    }
  }

  lemma {:induction false} UndoRuns(st: Store, incs: seq<SegmentId>)
    ensures Run(st, Undo(st, incs).steps) == Undo(st, incs).st
    decreases |incs|
  {
    if incs != [] {
      var id, rest := incs[|incs| - 1], incs[..|incs| - 1];
      if id in st.log.segs && st.log.segs[id].refCount > 0 {
        UndoRuns(Do(st, DecStep(id)), rest);
        RunConcat(st, [DecStep(id)], Undo(Do(st, DecStep(id)), rest).steps);
        RunOne(st, DecStep(id));
      }
    }
  }

  lemma {:induction false} ReleaseLoopRuns(st: Store, ids: seq<SegmentId>)
    ensures Run(st, ReleaseLoop(st, ids).steps) == ReleaseLoop(st, ids).st
  {
    if ids != [] {
      var init, id := ids[..|ids| - 1], ids[|ids| - 1];
      ReleaseLoopRuns(st, init);
      var r := ReleaseLoop(st, init);
      if r.error.None? && id in r.st.log.segs && r.st.log.segs[id].refCount > 0 {
        RunConcat(st, r.steps, ReleaseSteps(r.st, id));
      }
    }
  }

  lemma {:induction false} ReleaseLoopStuck(st: Store, ids: seq<SegmentId>, i: nat)
    requires i <= |ids| && ReleaseLoop(st, ids[..i]).error.Some?
    ensures ReleaseLoop(st, ids) == ReleaseLoop(st, ids[..i])
  {
    if i < |ids| {
      var init := ids[..|ids| - 1];
      assert init[..i] == ids[..i];
      ReleaseLoopStuck(st, init, i);
    } else {
      assert ids[..i] == ids;
    }
  }

  lemma ReleaseLoopStarts(st: Store, ids: seq<SegmentId>)
    ensures ReleaseLoop(st, ids[..0]) == Release(st, [], None)
  {
  }

  lemma ReleaseLoopAdvances(st: Store, ids: seq<SegmentId>, i: nat)
    requires i < |ids|
    ensures ReleaseLoop(st, ids[..i + 1]) == ReleaseOne(ReleaseLoop(st, ids[..i]), ids[i])
  {
    assert ids[..i + 1][..i] == ids[..i];
  }

  /** The steps so far do not matter to the next release. */
  lemma ReleaseOneSame(r: Release, id: SegmentId)
    requires r.error.None?
    ensures var a, b := ReleaseOne(r, id), ReleaseOne(Release(r.st, [], None), id); a.st == b.st && a.error == b.error
  {
  }

  lemma RunNothing(st: Store)
    ensures Run(st, []) == st
  {
  }

  lemma ReleaseRun(st: Store, id: SegmentId)
    requires id in st.log.segs && st.log.segs[id].refCount > 0
    ensures var s, st1 := st.log.segs[id], Do(st, DecStep(id));
            Run(st, ReleaseSteps(st, id)) ==
              if s.refCount > 1 then st1
              else Do(if s.contentHash.Some? then Do(st1, DeregisterStep(s.contentHash.value, id)) else st1, RemoveStep(id))
  {
    var s, st1 := st.log.segs[id], Do(st, DecStep(id));
    RunOne(st, DecStep(id));
    if s.refCount == 1 {
      RunConcat(st, [DecStep(id)], ReclaimSteps(s, id));
      if s.contentHash.Some? {
        var d := DeregisterStep(s.contentHash.value, id);
        RunConcat(st1, [d], [RemoveStep(id)]);
        RunOne(st1, d);
        RunOne(Do(st1, d), RemoveStep(id));
      } else {
        assert ReclaimSteps(s, id) == [RemoveStep(id)];
        RunOne(st1, RemoveStep(id));
      }
    }
  }

  // ---------------------------------------------------------------- what the asynchronous loop keeps

  datatype Disposition = NewSegment(registered: Option<ContentHash>) | ReusedPersistent | ReusedStaged

  datatype Committed = Committed(id: SegmentId, how: Disposition)

  /** A flight with nothing recorded yet. */
  function Bare(st: Store, txn: Txn, staged: map<ContentHash, SegmentId>): Flight {
    Flight(st, txn, staged, [], [], [], [], None)
  }

  /** What a flight records of one commit. */
  predicate Recorded(fl: Flight, c: Committed) {
    && fl.ids == [c.id]
    && fl.incs == (if c.how.ReusedPersistent? then [c.id] else [])
    && fl.regs == (if c.how.NewSegment? && c.how.registered.Some? then [(c.how.registered.value, c.id)] else [])
  }

  predicate CommitsTo(fl: Flight, st: Store, txn: Txn, staged: map<ContentHash, SegmentId>, r: Result<Committed>) {
    && fl.st == st && fl.txn == txn && fl.staged == staged
    && (if r.Ok? then fl.error.None? && Recorded(fl, r.value) else fl.error == Some(r.error))
  }

  /** A commit adds its record to whatever was recorded before. */
  lemma CommitSegmentLocal(fl: Flight, dedupe: bool, p: Prepared)
    requires fl.error.None?
    ensures var a, b := CommitSegment(fl, dedupe, p), CommitSegment(Bare(fl.st, fl.txn, fl.staged), dedupe, p);
            && a.st == b.st && a.txn == b.txn && a.staged == b.staged && a.error == b.error
            && a.ids == fl.ids + b.ids && a.incs == fl.incs + b.incs && a.regs == fl.regs + b.regs
            && (!fl.txn.finalized ==> !a.txn.finalized)
  {
    hide Do, Tagged, Restaged;
  }

  /** The local variables of the receive loop. */
  datatype Progress = Progress(
    staged: map<ContentHash, SegmentId>,
    incs: seq<SegmentId>,
    regs: seq<(ContentHash, SegmentId)>,
    ids: seq<SegmentId>,
    nextIndex: nat,
    error: Option<Error>)

  function Noted(g: Progress, r: Result<Committed>, staged: map<ContentHash, SegmentId>): Progress {
    match r
    case Err(e) => g.(staged := staged, error := Some(e))
    case Ok(c) =>
      Progress(
        staged,
        if c.how.ReusedPersistent? then g.incs + [c.id] else g.incs,
        if c.how.NewSegment? && c.how.registered.Some? then g.regs + [(c.how.registered.value, c.id)] else g.regs,
        g.ids + [c.id],
        g.nextIndex + 1,
        None)
  }

  predicate Follows(fl: Flight, st: Store, txn: Txn, g: Progress) {
    && fl.st == st && fl.txn == txn && fl.staged == g.staged && fl.ids == g.ids && fl.incs == g.incs && fl.regs == g.regs
    && fl.error == g.error
  }

  lemma NotedFollows(fl: Flight, st: Store, txn: Txn, g: Progress, dedupe: bool, p: Prepared,
                     st': Store, txn': Txn, staged: map<ContentHash, SegmentId>, r: Result<Committed>)
    requires Follows(fl, st, txn, g) && g.error.None? && !txn.finalized
    requires CommitsTo(CommitSegment(Bare(st, txn, g.staged), dedupe, p), st', txn', staged, r)
    ensures Follows(CommitSegment(fl, dedupe, p), st', txn', Noted(g, r, staged)) && !txn'.finalized
  {
    CommitSegmentLocal(fl, dedupe, p);
  }

  function Firsts(results: seq<Result<Prepared>>, k: nat): seq<Prepared>
    requires Prefix(results, k)
  {
    Values(results[..k])
  }

  predicate Prefix(results: seq<Result<Prepared>>, k: nat) {
    k <= |results| && forall i :: 0 <= i < k ==> results[i].Ok?
  }

  /** Exactly the arrived chunks from `next` on wait in their slots. */
  predicate Slots(ordered: array<Option<Prepared>>, results: seq<Result<Prepared>>, arrived: seq<nat>, next: nat)
    reads ordered
  {
    && ordered.Length == |results|
    && next <= |results|
    && (forall i :: 0 <= i < |arrived| ==> arrived[i] < |results| && results[arrived[i]].Ok?)
    && forall i :: next <= i < |results| ==>
      ordered[i] == if i in arrived then Some(results[i].value) else None
  }

  lemma CommitLoopStarts(st: Store, dedupe: bool)
    ensures CommitLoop(st, dedupe, []) == TakeOff(st)
  {
  }

  lemma CommitLoopAdvances(st: Store, dedupe: bool, results: seq<Result<Prepared>>, k: nat)
    requires k < |results| && Prefix(results, k + 1)
    ensures CommitLoop(st, dedupe, Firsts(results, k + 1)) == CommitSegment(CommitLoop(st, dedupe, Firsts(results, k)), dedupe, results[k].value)
  {
    assert Firsts(results, k + 1)[..k] == Firsts(results, k);
  }

  /** Every index below `k` has arrived. */
  predicate Covered(arrived: seq<nat>, k: nat) { forall i: nat :: i < k ==> i in arrived }

  lemma CoveredMore(arrivals: seq<nat>, a: nat, k: nat)
    requires a <= |arrivals| && Covered(arrivals[..a], k)
    ensures Covered(arrivals, k)
  {
    forall i: nat | i < k ensures i in arrivals {
      assert i in arrivals[..a];
    }
  }

  lemma ReachIs(results: seq<Result<Prepared>>, arrivals: seq<nat>, k: nat)
    requires k <= |results| && Covered(arrivals, k)
    ensures k <= Reach(ArrivedSet(arrivals), 0, |results|)
    ensures (k == |results| || k !in arrivals) ==> k == Reach(ArrivedSet(arrivals), 0, |results|)
  {
    var r := Reach(ArrivedSet(arrivals), 0, |results|);
    assert r < k ==> r in arrivals;
    assert k < r ==> k in ArrivedSet(arrivals);
  }

  lemma FirstsStuck(st: Store, dedupe: bool, results: seq<Result<Prepared>>, arrivals: seq<nat>, k: nat)
    requires Arrivals(results, arrivals) && k <= Reach(ArrivedSet(arrivals), 0, |results|) && Prefix(results, k)
    requires CommitLoop(st, dedupe, Firsts(results, k)).error.Some?
    ensures AsyncMain.FlightOf(st, dedupe, results, arrivals) == CommitLoop(st, dedupe, Firsts(results, k))
  {
    ReachedOk(results, arrivals);
    var all := Firsts(results, Reach(ArrivedSet(arrivals), 0, |results|));
    assert all[..k] == Firsts(results, k);
    CommitLoopStuck(st, dedupe, all, k);
  }

  // ---------------------------------------------------------------- how the asynchronous write ends

  lemma {:induction false} FlushRuns(st: Store, pending: seq<Pending>)
    ensures Run(st, FlushSteps(pending)) == AsyncCommit.FileWritten(st, WriteAll(st.log.file, pending))
  {
    if pending != [] {
      var e := pending[|pending| - 1];
      FlushRuns(st, pending[..|pending| - 1]);
      RunSnoc(st, FlushSteps(pending[..|pending| - 1]), WriteStep(e.segment.offset, e.data));
    }
  }

  /** The steps of a commit leave the log that the transaction's `Commit` leaves. */
  lemma CommitStepsRun(st: Store, t: Txn, io: Io)
    ensures Run(st, CommitSteps(t, io)) ==
              if t.pending == [] then st
              else if io.Good? then st.(log := NvramSim.Committed(st.log, t))
              else st.(log := Log(WriteTorn(st.log.file, t.pending, io.entries, io.bytes), st.log.segs, t.base))
  {
    hide FlushSteps, WriteAll;
    if t.pending == [] {
    } else if io.Good? {
      FlushRuns(st, t.pending);
      RunSnoc(st, FlushSteps(t.pending), PublishStep(t));
    } else {
      TornStepsRun(st, t.pending, io.entries, io.bytes);
      RunSnoc(st, TornSteps(t.pending, io.entries, io.bytes), MoveNextStep(t.base));
    }
  }

  lemma TornStepsRun(st: Store, pending: seq<Pending>, entries: nat, bytes: nat)
    ensures Run(st, TornSteps(pending, entries, bytes)) == AsyncCommit.FileWritten(st, WriteTorn(st.log.file, pending, entries, bytes))
  {
    hide FlushSteps, WriteAll, Run, WriteAt;
    var n := Min(entries, |pending|);
    FlushRuns(st, pending[..n]);
    if entries < |pending| {
      var e := pending[entries];
      RunSnoc(st, FlushSteps(pending[..n]), WriteStep(e.segment.offset, e.data[..Min(bytes, |e.data|)]));
    } else {
      assert pending[..n] == pending;
    }
  }

  lemma RegisterAdvances(st: Store, regs: seq<(ContentHash, SegmentId)>, i: nat)
    requires i < |regs|
    ensures Run(st, RegisterSteps(regs[..i + 1])) == Do(Run(st, RegisterSteps(regs[..i])), RegisterStep(regs[i].0, regs[i].1))
  {
    assert regs[..i + 1][..i] == regs[..i];
    RunSnoc(st, RegisterSteps(regs[..i]), RegisterStep(regs[i].0, regs[i].1));
  }

  lemma CleanupAdvances(st: Store, regs: seq<(ContentHash, SegmentId)>, i: nat)
    requires i < |regs|
    ensures Run(st, CleanupSteps(regs[..i + 1])) ==
              Do(Do(Run(st, CleanupSteps(regs[..i])), DeregisterStep(regs[i].0, regs[i].1)), RemoveStep(regs[i].1))
  {
    assert regs[..i + 1][..i] == regs[..i];
    var d, r := DeregisterStep(regs[i].0, regs[i].1), RemoveStep(regs[i].1);
    RunSnoc(st, CleanupSteps(regs[..i]), d);
    RunSnoc(st, CleanupSteps(regs[..i]) + [d], r);
    assert CleanupSteps(regs[..i]) + [d] + [r] == CleanupSteps(regs[..i + 1]);
  }

  lemma AbortRuns(st: Store, before: seq<Step>, incs: seq<SegmentId>, error: Error)
    ensures var p, u := Abort(st, before, incs, error), Undo(Run(st, before), incs);
            Run(st, p.steps) == u.st && p.outcome == Err(if u.error.Some? then u.error.value else error)
  {
    hide Undo, Run;
    var u := Undo(Run(st, before), incs);
    UndoRuns(Run(st, before), incs);
    RunConcat(st, before, u.steps);
  }

  /** The commit loop touches no capsule. */
  lemma {:induction false} CommitLoopCapsules(st: Store, dedupe: bool, preps: seq<Prepared>)
    ensures CommitLoop(st, dedupe, preps).st.reg.capsules == st.reg.capsules
  {
    hide Tagged, Restaged, Revise, Find;
    if preps != [] {
      CommitLoopCapsules(st, dedupe, preps[..|preps| - 1]);
    }
  }

  lemma {:induction false} RegisterCapsules(st: Store, regs: seq<(ContentHash, SegmentId)>)
    ensures Run(st, RegisterSteps(regs)).reg.capsules == st.reg.capsules
  {
    if regs != [] {
      var n := |regs| - 1;
      RegisterCapsules(st, regs[..n]);
      RunSnoc(st, RegisterSteps(regs[..n]), RegisterStep(regs[n].0, regs[n].1));
    }
  }

  lemma RegisterNone(st: Store)
    ensures Run(st, RegisterSteps([])) == st && Run(st, CleanupSteps([])) == st
  {
  }

  lemma FlightRuns(st: Store, dedupe: bool, results: seq<Result<Prepared>>, arrivals: seq<nat>)
    requires Arrivals(results, arrivals)
    ensures var fl := AsyncMain.FlightOf(st, dedupe, results, arrivals);
            && Run(st, fl.steps) == fl.st && fl.st.reg.capsules == st.reg.capsules
            && Run(st, fl.steps + [MoveNextStep(fl.txn.base)]) == fl.st.(log := fl.st.log.(next := fl.txn.base))
  {
    hide CommitLoop, Reach, Run;
    ReachedOk(results, arrivals);
    var preps := Values(results[..Reach(ArrivedSet(arrivals), 0, |results|)]);
    var fl := CommitLoop(st, dedupe, preps);
    CommitLoopRuns(st, dedupe, preps);
    CommitLoopCapsules(st, dedupe, preps);
    RunSnoc(st, fl.steps, MoveNextStep(fl.txn.base));
  }

  /** A task failed exactly when its chunk is missing; `ExitedEarly` stands for a chunk that got lost. */
  lemma JoinedError(results: seq<Result<Prepared>>, arrivals: seq<nat>)
    requires Arrivals(results, arrivals)
    ensures Reach(ArrivedSet(arrivals), 0, |results|) == |results| ==> forall i :: 0 <= i < |results| ==> results[i].Ok?
    ensures (forall i :: 0 <= i < |results| ==> results[i].Ok?) ==> TaskError(results) == ExitedEarly
  {
    ReachedOk(results, arrivals);
    if forall i :: 0 <= i < |results| ==> results[i].Ok? {
      TaskErrorAt(results, |results|);
    }
  }

  lemma TaskErrorAt(results: seq<Result<Prepared>>, i: nat)
    requires i <= |results| && forall j :: 0 <= j < i ==> results[j].Ok?
    ensures TaskError(results) == if i < |results| && results[i].Err? then results[i].error else TaskError(results[i..])
    decreases i
  {
    if i > 0 {
      TaskErrorAt(results[1..], i - 1);
      assert results[1..][i - 1..] == results[i..];
    } else {
      assert results[0..] == results;
    }
  }

  // ---------------------------------------------------------------- the class

  class WritePipeline {
    const registry: CapsuleRegistry
    const nvram: NvramLog
    const env: Env
    var keyVersion: Option<nat>  // the key manager's current version, if there is one

    ghost predicate Valid() reads registry, nvram { registry.Valid() && nvram.Valid() }

    ghost function View(): Store reads registry, nvram { Store(nvram.View(), registry.View()) }

    /** Start-up: the counts are reconciled before the pipeline is used. */
    constructor (registry: CapsuleRegistry, nvram: NvramLog, env: Env, keyVersion: Option<nat>)
      requires registry.Valid() && nvram.Valid()
      modifies registry, nvram
      ensures Valid() && this.registry == registry && this.nvram == nvram && this.env == env && this.keyVersion == keyVersion
      ensures View() == Reconciled(old(Store(nvram.View(), registry.View())))
    {
      this.registry, this.nvram, this.env, this.keyVersion := registry, nvram, env, keyVersion;
      new;
      ReconcileRefcounts();
    }

    // ------------------------------------------------------------ sequential write

    /** Allocate, append, tag and register one new segment. */
    method WriteNewSegment(p: Prepared, dedupe: bool, io: Io) returns (r: Result<SegmentId>)
      requires Valid()
      modifies registry, nvram
      ensures Valid()
      ensures io.Good? ==> r == Ok(old(View()).reg.nextId) && View() == Run(old(View()), NewChunkSteps(old(View()), dedupe, p))
      ensures io.Torn? ==>
        && r == Err(DeviceFailure)
        && View() == Run(old(View()), [AllocStep, WriteStep(old(View()).log.next, p.data[..Min(io.bytes, |p.data|)])])
    {
      ghost var st := View();
      var id := registry.AllocSegment();
      var appended := nvram.AppendSegment(id, p.data, io);
      if appended.Err? {
        TornRun(st, p.data[..Min(io.bytes, |p.data|)]);
        return Err(appended.error);
      }
      var segment := Tagged(appended.value, p, dedupe);
      nvram.UpdateSegmentMetadata(id, segment);
      NewChunkRun(st, dedupe, p);
      if dedupe {
        registry.RegisterContent(p.hash, id);
      }
      r := Ok(id);
    }

    method WriteCapsule(cid: CapsuleId, data: Bytes, policy: Policy, devices: nat -> Io) returns (r: Result<CapsuleId>)
      requires Valid()
      modifies registry, nvram
      ensures Valid()
      ensures var w := SyncWrite(old(View()), cid, |data|, policy, FeedsOf(env, data, policy, Always(keyVersion), devices));
              r == w.outcome && View() == Run(old(View()), w.steps)
    {
      hide Run, WriteLoop, WriteChunk, Chunks, Prepare;
      ghost var st, feeds, dedupe := View(), FeedsOf(env, data, policy, Always(keyVersion), devices), policy.dedupe;
      var chunks, segmentIds := Chunks(data), [];
      WriteLoopRuns(st, dedupe, feeds);
      WriteLoopStarts(st, dedupe, feeds);
      for i := 0 to |chunks|
        invariant Valid() && |feeds| == |chunks|
        invariant WriteLoop(st, dedupe, feeds[..i]).error.None?
        invariant segmentIds == WriteLoop(st, dedupe, feeds[..i]).ids
        invariant View() == WriteLoop(st, dedupe, feeds[..i]).st
      {
        WriteLoopAdvances(st, dedupe, feeds, i);
        assert feeds[i] == Feed(Prepare(env, policy, keyVersion, chunks[i]), devices(i));
        var written := WriteOne(chunks[i], policy, devices(i));
        if written.Err? {
          WriteLoopStuck(st, dedupe, feeds, i + 1);
          return Err(written.error);
        }
        segmentIds := segmentIds + [written.value];
      }
      assert feeds[..|chunks|] == feeds;
      RunSnoc(st, WriteLoop(st, dedupe, feeds).steps, CreateStep(cid, Capsule(|data|, segmentIds, policy)));
      var created := registry.CreateCapsuleWithSegments(cid, |data|, segmentIds, policy);
      if created.Err? { return Err(created.error); }
      r := Ok(cid);
    }

    /** The body of the loop: prepare the chunk, then reuse the segment with its hash or write a new one. */
    method WriteOne(chunk: Bytes, policy: Policy, io: Io) returns (r: Result<SegmentId>)
      requires Valid()
      modifies registry, nvram
      ensures Valid()
      ensures var c := WriteChunk(old(View()), policy.dedupe, Feed(Prepare(env, policy, keyVersion, chunk), io));
              r == c.id && View() == Run(old(View()), c.steps)
    {
      var prepared := Prepare(env, policy, keyVersion, chunk);
      if prepared.Err? { return Err(prepared.error); }
      var p := prepared.value;
      if policy.dedupe {
        var existing := registry.LookupContent(p.hash);
        if existing.Some? {
          RunOne(View(), IncStep(existing.value));
          var updated := nvram.IncrementRefcount(existing.value);
          if updated.Err? { return Err(updated.error); }
          return Ok(existing.value);
        }
      }
      r := WriteNewSegment(p, policy.dedupe, io);
    }

    // ------------------------------------------------------------ asynchronous write

    /** `commit_segment`: reuse a staged segment, reuse a stored one, or stage a new one. */
    method CommitPrepared(p: Prepared, dedupe: bool, txn: NvramTransaction, staged: map<ContentHash, SegmentId>)
      returns (r: Result<Committed>, staged': map<ContentHash, SegmentId>)
      requires Valid() && txn.log == nvram && !txn.finalized
      modifies registry, nvram, txn
      ensures Valid()
      ensures CommitsTo(CommitSegment(Bare(old(View()), old(txn.View()), staged), dedupe, p), View(), txn.View(), staged', r)
    {
      hide StageHit, StoreHit, StageNew;
      staged' := staged;
      if dedupe {
        if p.hash in staged {
          r := ReuseStaged(staged[p.hash], txn, staged);
          return;
        }
        var existing := registry.LookupContent(p.hash);
        if existing.Some? {
          r := ReusePersistent(existing.value, txn, staged);
          return;
        }
      }
      r, staged' := StageSegment(p, dedupe, txn, staged);
    }

    method ReuseStaged(id: SegmentId, txn: NvramTransaction, ghost staged: map<ContentHash, SegmentId>) returns (r: Result<Committed>)
      requires Valid() && txn.log == nvram && !txn.finalized
      modifies txn
      ensures CommitsTo(StageHit(Bare(old(View()), old(txn.View()), staged), id), View(), txn.View(), staged, r)
    {
      var pending := txn.PendingSegment(id);
      if pending.None? { return Err(SegmentNotFound); }
      var _ := txn.SetSegmentMetadata(id, Restaged(pending.value));
      r := Ok(Committed(id, ReusedStaged));
    }

    method ReusePersistent(id: SegmentId, txn: NvramTransaction, ghost staged: map<ContentHash, SegmentId>) returns (r: Result<Committed>)
      requires Valid() && txn.log == nvram && !txn.finalized
      modifies nvram
      ensures Valid() && CommitsTo(StoreHit(Bare(old(View()), old(txn.View()), staged), id), View(), txn.View(), staged, r)
    {
      var incremented := nvram.IncrementRefcount(id);
      if incremented.Err? { return Err(incremented.error); }
      r := Ok(Committed(id, ReusedPersistent));
    }

    method StageSegment(p: Prepared, dedupe: bool, txn: NvramTransaction, staged: map<ContentHash, SegmentId>)
      returns (r: Result<Committed>, staged': map<ContentHash, SegmentId>)
      requires Valid() && txn.log == nvram && !txn.finalized
      modifies registry, nvram, txn
      ensures Valid() && CommitsTo(StageNew(Bare(old(View()), old(txn.View()), staged), dedupe, p), View(), txn.View(), staged', r)
    {
      hide Find, Tagged;
      var id := registry.AllocSegment();
      var segment := txn.AppendSegment(id, p.data);
      staged' := if dedupe then staged[p.hash := id] else staged;
      var _ := txn.SetSegmentMetadata(id, Tagged(segment.value, p, dedupe));
      r := Ok(Committed(id, NewSegment(if dedupe then Some(p.hash) else None)));
    }

    /** The receive loop: put each arrival in its slot and commit the slots in index order as they fill. */
    method CommitInOrder(results: seq<Result<Prepared>>, dedupe: bool, arrivals: seq<nat>, txn: NvramTransaction)
      returns (g: Progress)
      requires Valid() && txn.log == nvram && txn.View() == Begin(nvram.View()) && Arrivals(results, arrivals)
      modifies registry, nvram, txn
      ensures Valid()
      ensures Follows(AsyncMain.FlightOf(old(View()), dedupe, results, arrivals), View(), txn.View(), g) && !txn.finalized
      ensures g.error.None? ==> g.nextIndex == Reach(ArrivedSet(arrivals), 0, |results|)
    {
      hide CommitLoop, CommitSegment, Reach, Noted;
      ghost var st := View();
      ghost var k: nat := 0;
      var ordered := new Option<Prepared>[|results|](_ => None);
      g := Progress(map[], [], [], [], 0, None);
      CommitLoopStarts(st, dedupe);
      assert Firsts(results, 0) == [];
      var a := 0;
      while a < |arrivals| && g.error.None?
        invariant a <= |arrivals| && Valid() && fresh(ordered)
        invariant Prefix(results, k) && Covered(arrivals[..a], k)
        invariant Follows(CommitLoop(st, dedupe, Firsts(results, k)), View(), txn.View(), g) && !txn.finalized
        invariant g.error.None? ==> k == g.nextIndex && Slots(ordered, results, arrivals[..a], k)
        invariant g.error.None? ==> k < |results| ==> k !in arrivals[..a]
      {
        assert arrivals[..a + 1] == arrivals[..a] + [arrivals[a]];
        CoveredMore(arrivals[..a + 1], a, k) by { assert arrivals[..a + 1][..a] == arrivals[..a]; }
        ordered[arrivals[a]] := Some(results[arrivals[a]].value);
        a := a + 1;
        ghost var k';
        g, k' := CommitReady(ordered, results, dedupe, arrivals[..a], txn, g, st);
        k := k';
      }
      assert a == |arrivals| ==> arrivals[..a] == arrivals;
      CoveredMore(arrivals, a, k);
      ReachIs(results, arrivals, k);
      if g.error.Some? {
        FirstsStuck(st, dedupe, results, arrivals, k);
      }
    }

    /** The inner loop: commit the filled slots from `nextIndex` on, up to a gap or an error. */
    method CommitReady(ordered: array<Option<Prepared>>, ghost results: seq<Result<Prepared>>, dedupe: bool, ghost arrived: seq<nat>,
                       txn: NvramTransaction, g0: Progress, ghost st: Store)
      returns (g: Progress, ghost k: nat)
      requires Valid() && txn.log == nvram && !txn.finalized && g0.error.None?
      requires Slots(ordered, results, arrived, g0.nextIndex) && Prefix(results, g0.nextIndex) && Covered(arrived, g0.nextIndex)
      requires Follows(CommitLoop(st, dedupe, Firsts(results, g0.nextIndex)), View(), txn.View(), g0)
      modifies registry, nvram, txn, ordered
      ensures Valid() && Prefix(results, k) && Covered(arrived, k)
      ensures Follows(CommitLoop(st, dedupe, Firsts(results, k)), View(), txn.View(), g) && !txn.finalized
      ensures g.error.None? ==> k == g.nextIndex && Slots(ordered, results, arrived, k)
      ensures g.error.None? && k < |results| ==> k !in arrived
    {
      hide CommitLoop, CommitSegment;
      g, k := g0, g0.nextIndex;
      while g.nextIndex < ordered.Length && ordered[g.nextIndex].Some? && g.error.None?
        invariant Valid() && Prefix(results, k) && Covered(arrived, k)
        invariant Follows(CommitLoop(st, dedupe, Firsts(results, k)), View(), txn.View(), g) && !txn.finalized
        invariant g.error.None? ==> k == g.nextIndex && Slots(ordered, results, arrived, k)
        invariant g.nextIndex <= ordered.Length == |results|
        decreases ordered.Length - g.nextIndex, g.error.None?
      {
        var p := ordered[g.nextIndex].value;
        ordered[g.nextIndex] := None;
        ghost var before, st0, txn0 := CommitLoop(st, dedupe, Firsts(results, k)), View(), txn.View();
        CommitLoopAdvances(st, dedupe, results, k);
        var r, staged := CommitPrepared(p, dedupe, txn, g.staged);
        NotedFollows(before, st0, txn0, g, dedupe, p, View(), txn.View(), staged, r);
        g := Noted(g, r, staged);
        k := k + 1;
      }
    }

    method UndoIncrements(incs: seq<SegmentId>) returns (error: Option<Error>)
      requires Valid()
      modifies nvram
      ensures Valid() && View() == Undo(old(View()), incs).st && error == Undo(old(View()), incs).error
    {
      ghost var whole := Undo(View(), incs);
      var i := |incs|;
      assert incs[..i] == incs;
      while i > 0
        invariant i <= |incs| && Valid()
        invariant Undo(View(), incs[..i]).st == whole.st && Undo(View(), incs[..i]).error == whole.error
      {
        i := i - 1;
        assert incs[..i + 1][..i] == incs[..i];
        var decremented := nvram.DecrementRefcount(incs[i]);
        if decremented.Err? { return Some(decremented.error); }
      }
      error := None;
    }

    method RegisterAll(regs: seq<(ContentHash, SegmentId)>)
      requires Valid()
      modifies registry
      ensures Valid() && View() == Run(old(View()), RegisterSteps(regs))
    {
      hide Run, RegisterSteps;
      ghost var st := View();
      RegisterNone(st);
      for i := 0 to |regs|
        invariant Valid() && View() == Run(st, RegisterSteps(regs[..i]))
      {
        RegisterAdvances(st, regs, i);
        registry.RegisterContent(regs[i].0, regs[i].1);
      }
      assert regs[..|regs|] == regs;
    }

    /** After a refused capsule: forget and remove what this write registered. */
    method CleanUp(regs: seq<(ContentHash, SegmentId)>)
      requires Valid()
      modifies registry, nvram
      ensures Valid() && View() == Run(old(View()), CleanupSteps(regs))
    {
      hide Run, CleanupSteps;
      ghost var st := View();
      RegisterNone(st);
      for i := 0 to |regs|
        invariant Valid() && View() == Run(st, CleanupSteps(regs[..i]))
      {
        CleanupAdvances(st, regs, i);
        var _ := registry.DeregisterContent(regs[i].0, regs[i].1);
        var _ := nvram.RemoveSegment(regs[i].1);
      }
      assert regs[..|regs|] == regs;
    }

    /** Joining the tasks: the first failure, in task order, unless an error is already known. */
    method JoinTasks(results: seq<Result<Prepared>>, known: Option<Error>) returns (error: Option<Error>)
      ensures known.Some? ==> error == known
      ensures known.None? ==> error == if forall i :: 0 <= i < |results| ==> results[i].Ok? then None else Some(TaskError(results))
    {
      error := known;
      for i := 0 to |results|
        invariant known.Some? ==> error == known
        invariant known.None? && error.None? ==> forall j :: 0 <= j < i ==> results[j].Ok?
        invariant known.None? && error.Some? ==> error == Some(TaskError(results)) && !(forall j :: 0 <= j < |results| ==> results[j].Ok?)
      {
        if results[i].Err? && error.None? {
          TaskErrorAt(results, i);
          error := Some(results[i].error);
        }
      }
    }

    /** Undo the dedup hits and report `error`, or the error of undoing. */
    method FinishAbort(ghost st: Store, ghost before: seq<Step>, incs: seq<SegmentId>, error: Error) returns (r: Result<CapsuleId>)
      requires Valid() && View() == Run(st, before)
      modifies nvram
      ensures Valid()
      ensures r == Abort(st, before, incs, error).outcome && View() == Run(st, Abort(st, before, incs, error).steps)
    {
      hide Run, Undo, Abort;
      AbortRuns(st, before, incs, error);
      var undone := UndoIncrements(incs);
      r := Err(if undone.Some? then undone.value else error);
    }

    /** All chunks are staged: commit, register, create the capsule. */
    method FinishCommit(cid: CapsuleId, size: nat, policy: Policy, g: Progress, txn: NvramTransaction, device: Io,
                        ghost st: Store, ghost fl: Flight)
      returns (r: Result<CapsuleId>)
      requires Valid() && txn.log == nvram && !txn.finalized && Follows(fl, View(), txn.View(), g)
      requires View() == Run(st, fl.steps) && View().reg.capsules == st.reg.capsules
      modifies registry, nvram, txn
      ensures Valid()
      ensures var w := CommitFlight(st, cid, size, policy, fl, device); r == w.outcome && View() == Run(st, w.steps)
    {
      hide Run, Undo, Abort, CommitSteps, CleanupSteps, RegisterSteps, WriteAll, WriteTorn;
      ghost var committed := fl.steps + CommitSteps(fl.txn, device);
      CommitStepsRun(View(), fl.txn, device);
      RunConcat(st, fl.steps, CommitSteps(fl.txn, device));
      var done := txn.Commit(device);
      assert View() == Run(st, committed);
      if done.Err? {
        r := FinishAbort(st, committed, g.incs, done.error);
        return;
      }
      RegisterCapsules(View(), fl.regs);
      RunConcat(st, committed, RegisterSteps(fl.regs));
      RegisterAll(g.regs);
      ghost var registered := committed + RegisterSteps(fl.regs);
      var c := Capsule(size, g.ids, policy);
      RunSnoc(st, registered, CreateStep(cid, c));
      var created := registry.CreateCapsuleWithSegments(cid, size, g.ids, policy);
      if created.Err? {
        RunConcat(st, registered, CleanupSteps(fl.regs));
        CleanUp(g.regs);
        r := FinishAbort(st, registered + CleanupSteps(fl.regs), g.incs, created.error);
        return;
      }
      r := Ok(cid);
    }

    method WriteCapsuleAsync(cid: CapsuleId, data: Bytes, policy: Policy, arrivals: seq<nat>, device: Io) returns (r: Result<CapsuleId>)
      requires Valid() && Arrivals(Results(env, data, policy, Always(keyVersion)), arrivals)
      modifies registry, nvram
      ensures Valid()
      ensures var w := AsyncWrite.AsyncWrite(old(View()), cid, |data|, policy, Results(env, data, policy, Always(keyVersion)), arrivals, device);
              r == w.outcome && View() == Run(old(View()), w.steps)
    {
      hide Run, CommitLoop, Reach, TaskError, Undo, CommitSteps, CleanupSteps, RegisterSteps, Prepare, Chunks;
      ghost var st := View();
      var results := Results(env, data, policy, Always(keyVersion));
      if results == [] {
        RunNothing(st);
        RunOne(st, CreateStep(cid, Capsule(0, [], policy)));
        var empty := registry.CreateCapsuleWithSegments(cid, 0, [], policy);
        return if empty.Err? then Err(empty.error) else Ok(cid);
      }
      var txn := new NvramTransaction(nvram);
      var g := CommitInOrder(results, policy.dedupe, arrivals, txn);
      ghost var fl := AsyncMain.FlightOf(st, policy.dedupe, results, arrivals);
      FlightRuns(st, policy.dedupe, results, arrivals);
      JoinedError(results, arrivals);
      var error := JoinTasks(results, g.error);
      if error.None? && g.nextIndex != |results| { error := Some(ExitedEarly); }
      if error.Some? {
        txn.Rollback();
        r := FinishAbort(st, fl.steps + [MoveNextStep(fl.txn.base)], g.incs, error.value);
        return;
      }
      r := FinishCommit(cid, |data|, policy, g, txn, device, st, fl);
    }

    // ------------------------------------------------------------ delete

    method DeleteCapsule(cid: CapsuleId) returns (r: Result<CapsuleId>)
      requires Valid()
      modifies registry, nvram
      ensures Valid() && r == Delete(old(View()), cid).outcome && View() == Run(old(View()), Delete(old(View()), cid).steps)
    {
      hide Run, ReleaseLoop, ReleaseOne;
      ghost var st := View();
      var deleted := registry.DeleteCapsule(cid);
      if deleted.Err? {
        RunNothing(st);
        return Err(deleted.error);
      }
      var ids := deleted.value.segments;
      ghost var st1 := Do(st, DropStep(cid));
      ReleaseLoopRuns(st1, ids);
      RunConcat(st, [DropStep(cid)], ReleaseLoop(st1, ids).steps);
      RunOne(st, DropStep(cid));
      ReleaseLoopStarts(st1, ids);
      for i := 0 to |ids|
        invariant Valid() && ReleaseLoop(st1, ids[..i]).error.None? && View() == ReleaseLoop(st1, ids[..i]).st
      {
        ReleaseLoopAdvances(st1, ids, i);
        var error := ReleaseSegment(ids[i]);
        ReleaseOneSame(ReleaseLoop(st1, ids[..i]), ids[i]);
        if error.Some? {
          ReleaseLoopStuck(st1, ids, i + 1);
          return Err(error.value);
        }
      }
      assert ids[..|ids|] == ids;
      r := Ok(cid);
    }

    method ReleaseSegment(id: SegmentId) returns (error: Option<Error>)
      requires Valid()
      modifies registry, nvram
      ensures Valid()
      ensures var r := ReleaseOne(Release(old(View()), [], None), id); error == r.error && View() == r.st
    {
      ghost var st := View();
      var decremented := nvram.DecrementRefcount(id);
      if decremented.Err? { return Some(decremented.error); }
      ReleaseRun(st, id);
      var segment := decremented.value;
      if segment.refCount == 0 {
        if segment.contentHash.Some? {
          var _ := registry.DeregisterContent(segment.contentHash.value, id);
        }
        var _ := nvram.RemoveSegment(id);
      }
      error := None;
    }

    // ------------------------------------------------------------ read

    method ReadCapsule(cid: CapsuleId) returns (r: Result<Bytes>)
      requires Valid()
      ensures r == BytesWith(env, View(), cid, keyVersion.Some?)
    {
      var found := registry.Lookup(cid);
      if found.Err? { return Err(found.error); }
      var ids, c := found.value.segments, found.value.policy.compression;
      var result := [];
      for i := 0 to |ids|
        invariant ReadWith(env, nvram.View(), c, ids[..i], keyVersion.Some?) == Ok(result)
      {
        assert ids[..i + 1][..i] == ids[..i];
        ReadWithStops(env, nvram.View(), c, ids, i + 1, keyVersion.Some?);
        var raw := nvram.Read(ids[i]);
        if raw.Err? { return Err(raw.error); }
        var segment := nvram.GetSegmentMetadata(ids[i]);
        assert segment.Ok?;
        if segment.value.encryption.Some? && keyVersion.None? { return Err(KeyManagerMissing); }
        var plain := Decrypt(env, segment.value.encryption, raw.value);
        if plain.Err? { return Err(plain.error); }
        result := result + Unpack(env, c, plain.value);
      }
      assert ids[..|ids|] == ids;
      r := Ok(result);
    }

    /** Reads the whole capsule and slices it. */
    method ReadRange(cid: CapsuleId, offset: nat, len: nat) returns (r: Result<Bytes>)
      requires Valid()
      ensures var all := BytesWith(env, View(), cid, keyVersion.Some?);
              r == if cid !in View().reg.capsules then Err(CapsuleNotFound)
                   else if offset + len > View().reg.capsules[cid].size then Err(OutOfRange)
                   else if all.Err? then all
                   else if offset + len > |all.value| then Err(Panicked)
                   else Ok(all.value[offset..offset + len])
    {
      var found := registry.Lookup(cid);
      if found.Err? { return Err(found.error); }
      if offset + len > found.value.size { return Err(OutOfRange); }
      var all := ReadCapsule(cid);
      if all.Err? { return all; }
      if offset + len > |all.value| { return Err(Panicked); }
      r := Ok(all.value[offset..offset + len]);
    }

    // ------------------------------------------------------------ collection and reconciliation

    /** `GarbageCollector::sweep` over the segments present at its start, in any order. */
    method Sweep() returns (r: Result<nat>)
      requires Valid()
      modifies registry, nvram
      ensures Valid() && View() == Swept(old(View())) && r == Ok(|Dead(old(View()), old(View()).log.segs.Keys)|)
    {
      hide SweptSome;
      ghost var st := View();
      var todo := nvram.segmentMap;
      var reclaimed := 0;
      ghost var done: set<SegmentId> := {};
      SweptNone(st);
      while todo != map[]
        invariant Valid() && done !! todo.Keys && done + todo.Keys == st.log.segs.Keys
        invariant forall id :: id in todo ==> todo[id] == st.log.segs[id]
        invariant View() == SweptSome(st, done) && reclaimed == |Dead(st, done)|
        decreases |todo|
      {
        var id :| id in todo;
        SweptHas(st, done, id);
        SweptMore(st, done, id);
        DeadMore(st, done, id);
        if todo[id].refCount == 0 {
          var one := ReclaimSegment(todo[id]);
          assert one.Ok?;  // nothing vanishes while nothing else runs
          reclaimed := reclaimed + 1;
        }
        todo := todo - {id};
        done := done + {id};
      }
      assert done == st.log.segs.Keys;
      r := Ok(reclaimed);
    }

    /** The content entry first, then the segment; reports a segment that is not there any more. */
    method ReclaimSegment(segment: Segment) returns (r: Result<()>)
      requires Valid()
      modifies registry, nvram
      ensures Valid() && View() == Reclaimed(old(View()), segment, segment.id)
      ensures r == if segment.id in old(View()).log.segs then Ok(()) else Err(SegmentVanished)
    {
      if segment.contentHash.Some? {
        var _ := registry.DeregisterContent(segment.contentHash.value, segment.id);
      }
      var removed := nvram.RemoveSegment(segment.id);
      r := if removed.Some? then Ok(()) else Err(SegmentVanished);
    }

    /** Count every segment occurrence over all capsules, in 32 bits, in any order of the capsules. */
    method CountReferences() returns (counts: map<SegmentId, nat>)
      ensures CountsOf(counts, Refs(registry.capsules))
    {
      hide Refs, CountsOf, Parted;
      counts := map[];
      var todo := registry.capsules;
      ghost var done: map<CapsuleId, Capsule> := map[];
      NoCounts();
      NothingParted(registry.capsules);
      while todo != map[]
        invariant Parted(done, todo, registry.capsules)
        invariant CountsOf(counts, Refs(done))
        decreases |todo|
      {
        var cid :| cid in todo;
        PartedMore(done, todo, registry.capsules, cid);
        RefsCreate(done, cid, todo[cid]);
        counts := CountAll(counts, todo[cid].segments, Refs(done));
        done := done[cid := todo[cid]];
        todo := todo - {cid};
      }
      AllParted(done, registry.capsules);
    }

    method CountAll(before: map<SegmentId, nat>, ids: seq<SegmentId>, ghost refs: multiset<SegmentId>) returns (counts: map<SegmentId, nat>)
      requires CountsOf(before, refs)
      ensures CountsOf(counts, refs + multiset(ids))
    {
      hide AsU32;
      counts := before;
      assert refs + multiset(ids[..0]) == refs;
      for i := 0 to |ids|
        invariant CountsOf(counts, refs + multiset(ids[..i]))
      {
        assert ids[..i + 1] == ids[..i] + [ids[i]];
        assert refs + multiset(ids[..i + 1]) == refs + multiset(ids[..i]) + multiset{ids[i]};
        CountWraps((refs + multiset(ids[..i]))[ids[i]]);
        counts := counts[ids[i] := if ids[i] in counts then AsU32(counts[ids[i]] + 1) else 1];
      }
      assert ids[..|ids|] == ids;
    }

    method ReconcileRefcounts()
      requires Valid()
      modifies registry, nvram
      ensures Valid() && View() == Reconciled(old(View()))
    {
      hide FixedSome, SweptSome, Fixing;
      ghost var st := View();
      var counts := CountReferences();
      var todo := nvram.segmentMap;
      ghost var done: set<SegmentId> := {};
      FixedNone(st);
      NothingFixed(st);
      while todo != map[]
        invariant Valid() && Fixing(st, done, todo) && View() == FixedSome(st, done)
        decreases |todo|
      {
        var id :| id in todo;
        FixingMore(st, done, todo, id);
        FixedMore(st, done, id);
        var expected := CountIn(counts, id);
        if todo[id].refCount != expected {
          nvram.UpdateSegmentMetadata(id, Fixed(todo[id], expected));
        }
        todo := todo - {id};
        done := done + {id};
      }
      AllFixed(st, done);
      var _ := Sweep();
    }
  }

  // ---------------------------------------------------------------- lemmas for the loops

  function CountIn(counts: map<SegmentId, nat>, id: SegmentId): nat { if id in counts then counts[id] else 0 }

  /** The counts are the references, in 32 bits. */
  ghost predicate CountsOf(counts: map<SegmentId, nat>, refs: multiset<SegmentId>) {
    forall id :: CountIn(counts, id) == AsU32(refs[id])
  }

  /** Counting in 32 bits is counting and then truncating. */
  lemma CountWraps(n: nat)
    ensures AsU32(n + 1) == AsU32(AsU32(n) + 1) && AsU32(0) == 0 && AsU32(1) == 1
  {
  }

  /** The capsules already counted and those still to count. */
  ghost predicate Parted(done: map<CapsuleId, Capsule>, todo: map<CapsuleId, Capsule>, all: map<CapsuleId, Capsule>) {
    && (forall c :: c in done ==> c in all && done[c] == all[c] && c !in todo)
    && (forall c :: c in todo ==> c in all && todo[c] == all[c])
    && forall c :: c in all ==> c in done || c in todo
  }

  lemma NothingParted(all: map<CapsuleId, Capsule>)
    ensures Parted(map[], all, all)
  {
  }

  lemma PartedMore(done: map<CapsuleId, Capsule>, todo: map<CapsuleId, Capsule>, all: map<CapsuleId, Capsule>, cid: CapsuleId)
    requires Parted(done, todo, all) && cid in todo
    ensures cid !in done && Parted(done[cid := todo[cid]], todo - {cid}, all)
    ensures |todo - {cid}| < |todo|
  {
    FewerLeft(todo, cid);
  }

  lemma FewerLeft(todo: map<CapsuleId, Capsule>, cid: CapsuleId)
    requires cid in todo
    ensures |todo - {cid}| < |todo|
  {
    assert (todo - {cid}).Keys == todo.Keys - {cid};
    assert |(todo - {cid}).Keys| < |todo.Keys|;
  }

  lemma AllParted(done: map<CapsuleId, Capsule>, all: map<CapsuleId, Capsule>)
    requires Parted(done, map[], all)
    ensures done == all
  {
    assert done.Keys == all.Keys;
  }

  /** The segments whose counts have been corrected, and those still to look at. */
  ghost predicate Fixing(st: Store, done: set<SegmentId>, todo: map<SegmentId, Segment>) {
    done !! todo.Keys && done + todo.Keys == st.log.segs.Keys && forall id :: id in todo ==> id in st.log.segs && todo[id] == st.log.segs[id]
  }

  lemma NothingFixed(st: Store)
    ensures Fixing(st, {}, st.log.segs)
  {
  }

  lemma FixingMore(st: Store, done: set<SegmentId>, todo: map<SegmentId, Segment>, id: SegmentId)
    requires Fixing(st, done, todo) && id in todo
    ensures id !in done && id in st.log.segs && todo[id] == st.log.segs[id]
    ensures Fixing(st, done + {id}, todo - {id}) && |todo - {id}| < |todo|
  {
    assert (todo - {id}).Keys == todo.Keys - {id};
    assert |(todo - {id}).Keys| < |todo.Keys|;
  }

  lemma AllFixed(st: Store, done: set<SegmentId>)
    requires Fixing(st, done, map[])
    ensures done == st.log.segs.Keys
  {
  }

  lemma NoCounts()
    ensures CountsOf(map[], Refs(map[]))
  {
  }

  lemma TornRun(st: Store, piece: Bytes)
    ensures Run(st, [AllocStep, WriteStep(st.log.next, piece)]) == Do(Do(st, AllocStep), WriteStep(st.log.next, piece))
  {
    RunConcat(st, [AllocStep], [WriteStep(st.log.next, piece)]);
    RunOne(st, AllocStep);
    RunOne(Do(st, AllocStep), WriteStep(st.log.next, piece));
    assert [AllocStep] + [WriteStep(st.log.next, piece)] == [AllocStep, WriteStep(st.log.next, piece)];
  }

  // ---------------------------------------------------------------- reading with and without a key manager

  /** The loop of a read; an encrypted segment needs the key manager. */
  function ReadWith(env: Env, l: Log, c: Compression, ids: seq<SegmentId>, keys: bool): Result<Bytes> {
    if ids == [] then Ok([])
    else
      var id := ids[|ids| - 1];
      match ReadWith(env, l, c, ids[..|ids| - 1], keys)
      case Err(e) => Err(e)
      case Ok(head) =>
        if id !in l.segs then Err(SegmentNotFound)
        else match RawOf(l, id)
             case None => Err(ReadPastEnd)
             case Some(raw) =>
               if l.segs[id].encryption.Some? && !keys then Err(KeyManagerMissing)
               else match Decrypt(env, l.segs[id].encryption, raw)
                    case Err(e) => Err(e)
                    case Ok(data) => Ok(head + Unpack(env, c, data))
  }

  function BytesWith(env: Env, st: Store, cid: CapsuleId, keys: bool): Result<Bytes> {
    if cid !in st.reg.capsules then Err(CapsuleNotFound)
    else ReadWith(env, st.log, st.reg.capsules[cid].policy.compression, st.reg.capsules[cid].segments, keys)
  }

  predicate Encrypted(l: Log, ids: seq<SegmentId>) {
    exists i :: 0 <= i < |ids| && ids[i] in l.segs && l.segs[ids[i]].encryption.Some?
  }

  /** With the keys a read gives the capsule's bytes; without them exactly if none of its segments is encrypted. */
  lemma {:induction false} ReadWithIff(env: Env, l: Log, c: Compression, ids: seq<SegmentId>)
    ensures ReadWith(env, l, c, ids, true) == ReadSegments(env, l, c, ids)
    ensures !Encrypted(l, ids) ==> ReadWith(env, l, c, ids, false) == ReadSegments(env, l, c, ids)
    ensures Encrypted(l, ids) && ReadSegments(env, l, c, ids).Ok? ==> ReadWith(env, l, c, ids, false) == Err(KeyManagerMissing)
  {
    if ids != [] {
      var n := |ids| - 1;
      ReadWithIff(env, l, c, ids[..n]);
      if Encrypted(l, ids[..n]) {
        var i :| 0 <= i < n && ids[..n][i] in l.segs && l.segs[ids[..n][i]].encryption.Some?;
        assert ids[i] == ids[..n][i];
      }
      if ids[n] in l.segs && l.segs[ids[n]].encryption.Some? { assert Encrypted(l, ids); }
    }
  }

  /** A capsule that reads is readable to a pipeline exactly if it has the keys or needs none. */
  lemma KeysNeededIff(env: Env, st: Store, cid: CapsuleId, keys: bool)
    requires CapsuleBytes(env, st, cid).Ok?
    ensures BytesWith(env, st, cid, keys) == CapsuleBytes(env, st, cid) <==> keys || !Encrypted(st.log, st.reg.capsules[cid].segments)
  {
    hide ReadSegments, ReadWith;
    var c := st.reg.capsules[cid];
    ReadWithIff(env, st.log, c.policy.compression, c.segments);
  }

  /** A read that fails stays failed. */
  lemma {:induction false} ReadWithStops(env: Env, l: Log, c: Compression, ids: seq<SegmentId>, i: nat, keys: bool)
    requires i <= |ids|
    ensures ReadWith(env, l, c, ids[..i], keys).Err? ==> ReadWith(env, l, c, ids, keys) == ReadWith(env, l, c, ids[..i], keys)
    decreases |ids| - i
  {
    if i < |ids| {
      ReadWithStops(env, l, c, ids, i + 1, keys);
      assert ids[..i + 1][..i] == ids[..i];
    } else {
      assert ids[..i] == ids;
    }
  }

  lemma SweptNone(st: Store)
    ensures SweptSome(st, {}) == st
  {
    assert SweptSome(st, {}).log.segs == st.log.segs;
    assert SweptSome(st, {}).reg.content == st.reg.content;
  }

  /** What the sweep has not visited is still there. */
  lemma SweptHas(st: Store, done: set<SegmentId>, id: SegmentId)
    requires id in st.log.segs && id !in done
    ensures id in SweptSome(st, done).log.segs
  {
  }

  function Reclaimed(st: Store, s: Segment, id: SegmentId): Store {
    Do(if s.contentHash.Some? then Do(st, DeregisterStep(s.contentHash.value, id)) else st, RemoveStep(id))
  }

  function Dead(st: Store, among: set<SegmentId>): set<SegmentId> {
    set id | id in among && id in st.log.segs && st.log.segs[id].refCount == 0
  }

  lemma DeadMore(st: Store, done: set<SegmentId>, id: SegmentId)
    requires id in st.log.segs && id !in done
    ensures |Dead(st, done + {id})| == |Dead(st, done)| + if st.log.segs[id].refCount == 0 then 1 else 0
  {
    if st.log.segs[id].refCount == 0 {
      assert Dead(st, done + {id}) == Dead(st, done) + {id};
    } else {
      assert Dead(st, done + {id}) == Dead(st, done);
    }
  }

  lemma SweptMore(st: Store, done: set<SegmentId>, id: SegmentId)
    requires id in st.log.segs && id !in done
    ensures var s, mid := st.log.segs[id], SweptSome(st, done);
            SweptSome(st, done + {id}) == if s.refCount != 0 then mid else Reclaimed(mid, s, id)
  {
    var s, mid, next := st.log.segs[id], SweptSome(st, done), SweptSome(st, done + {id});
    if s.refCount != 0 {
      assert next.log.segs == mid.log.segs;
      assert next.reg.content == mid.reg.content;
    } else {
      var end := Reclaimed(mid, s, id);
      assert next.log.segs == end.log.segs;
      assert next.reg.content == end.reg.content;
    }
  }

  lemma FixedNone(st: Store)
    ensures FixedSome(st, {}) == st
  {
    assert FixedSome(st, {}).log.segs == st.log.segs;
  }

  lemma FixedMore(st: Store, done: set<SegmentId>, id: SegmentId)
    requires id in st.log.segs && id !in done
    ensures var mid, expected := FixedSome(st, done), AsU32(Refs(st.reg.capsules)[id]);
            FixedSome(st, done + {id}) ==
              if st.log.segs[id].refCount != expected then Do(mid, UpdateStep(id, Fixed(st.log.segs[id], expected))) else mid
  {
    var mid, next := FixedSome(st, done), FixedSome(st, done + {id});
    var expected := AsU32(Refs(st.reg.capsules)[id]);
    if st.log.segs[id].refCount != expected {
      assert next.log.segs == Do(mid, UpdateStep(id, Fixed(st.log.segs[id], expected))).log.segs;
    } else {
      assert next.log.segs == mid.log.segs;
    }
  }
}
