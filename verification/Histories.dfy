/** What one capsule goes through in a history of other operations. */
module Histories {
  import opened Types
  import opened Codec
  import opened NvramSim
  import opened Registry
  import opened Store
  import opened Programs
  import opened Recovery
  import opened AsyncWrite
  import opened AsyncCommit
  import opened AsyncCorrect
  import opened Refinement
  import opened AsyncMain
  import opened Runs

  // ---------------------------------------------------------------- a capsule that nobody deletes

  predicate Undropped(steps: seq<Step>, cid: CapsuleId) { DropStep(cid) !in steps }

  /** Allowed steps that do not drop a capsule leave it as it is. */
  lemma {:induction false} StepsKeepCapsule(env: Env, st: Store, f: multiset<SegmentId>, steps: seq<Step>, cid: CapsuleId)
    requires Inv(env, st, f) && AllAllowed(env, st, f, steps) && Undropped(steps, cid) && cid in st.reg.capsules
    ensures cid in Run(st, steps).reg.capsules && CapsuleBytes(env, Run(st, steps), cid) == CapsuleBytes(env, st, cid)
  {
    hide Inv, Allowed, CapsuleBytes, AllAllowed, Run, HeldAfter;
    if steps == [] {
      assert Run(st, []) == st by { RunNone(st); }
    } else {
      var before, s := steps[..|steps| - 1], steps[|steps| - 1];
      LastAllowed(env, st, f, steps);
      StepsKeepCapsule(env, st, f, before, cid);
      ProgramKeepsInv(env, st, f, before);
      StepKeepsCapsule(Run(st, before), s, cid);
      StepKeepsReads(env, Run(st, before), HeldAfter(st, f, before), s, cid);
    }
  }

  lemma RunNone(st: Store)
    ensures Run(st, []) == st
  {
  }

  lemma LastAllowed(env: Env, st: Store, f: multiset<SegmentId>, steps: seq<Step>)
    requires AllAllowed(env, st, f, steps) && steps != []
    ensures var before, s := steps[..|steps| - 1], steps[|steps| - 1];
            && AllAllowed(env, st, f, before) && Allowed(env, Run(st, before), HeldAfter(st, f, before), s)
            && Run(st, steps) == Do(Run(st, before), s)
  {
  }

  lemma StepKeepsCapsule(st: Store, s: Step, cid: CapsuleId)
    requires cid in st.reg.capsules && s != DropStep(cid)
    ensures cid in Do(st, s).reg.capsules
  {
  }

  /** The event does not delete the capsule; it may do anything else, including failing to write it again. */
  predicate Spares(e: Event, cid: CapsuleId) { e.Collected? || !e.work.DeleteWork? || e.work.cid != cid }

  lemma WorkSpares(env: Env, st: Store, f: multiset<SegmentId>, w: Work, cid: CapsuleId)
    requires Possible(env, w) && SoundCipher(env) && Inv(env, st, f) && Room(st.log, ChunkCount(w))
    requires !w.DeleteWork? || w.cid != cid
    ensures Undropped(ProgramOf(env, st, w).steps, cid)
  {
    hide Inv, Possible, SoundCipher, Refs, ProgramOf;
    ProgramShape(env, st, f, w);
    var steps := ProgramOf(env, st, w).steps;
    if w.DeleteWork? && steps != [] {
      assert steps == [steps[0]] + steps[1..];
    }
  }

  /** No event but its deletion changes what a capsule reads: not the writes of others, whatever their data, not a
      deletion that shares its segments, not a collection, not a crash at any step. */
  lemma EventKeepsCapsule(env: Env, st: Store, f: multiset<SegmentId>, e: Event, cid: CapsuleId)
    requires PossibleEvent(env, e) && SoundCipher(env) && Spares(e, cid)
    requires Inv(env, st, f) && NoZero(st.log) && Room(st.log, Cost(e)) && cid in st.reg.capsules
    ensures cid in After(env, st, e).reg.capsules && CapsuleBytes(env, After(env, st, e), cid) == CapsuleBytes(env, st, cid)
  {
    hide Inv, SoundCipher, Possible, NoZero, Reconciled, Opened, Swept, Refs, ProgramOf, CapsuleBytes, Run, AllAllowed, HeldAfter, Undropped;
    if e.Collected? {
      SweepIdle(st);
    } else {
      var w := e.work;
      var steps := ProgramOf(env, st, w).steps;
      var f1 := WorkFinishes(env, st, f, w);
      WorkSpares(env, st, f, w, cid);
      if e.Done? {
        StepsKeepCapsule(env, st, f, steps, cid);
      } else {
        var m := Min(e.k, |steps|);
        AllowedPrefix(env, st, f, steps, m);
        UndroppedPrefix(steps, cid, m);
        StepsKeepCapsule(env, st, f, steps[..m], cid);
        var f2 := InterruptedInv(env, st, f, w, e.k);
        CrashCleans(env, Interrupted(env, st, w, e.k), f2);
      }
    }
  }

  lemma UndroppedPrefix(steps: seq<Step>, cid: CapsuleId, k: nat)
    requires Undropped(steps, cid) && k <= |steps|
    ensures Undropped(steps[..k], cid)
  {
  }

  /** Over every history, whatever is written in it: exact counts, no dead segment, references conserved. */
  lemma {:induction false} HistoryKeepsInv(env: Env, st: Store, f: multiset<SegmentId>, es: seq<Event>) returns (f': multiset<SegmentId>)
    requires PossibleHistory(env, es) && SoundCipher(env)
    requires Inv(env, st, f) && NoZero(st.log) && Roomy(env, st, es)
    ensures Inv(env, AfterAll(env, st, es), f') && NoZero(AfterAll(env, st, es).log)
    ensures Conserved(st, f, AfterAll(env, st, es), f', Costs(es))
  {
    hide Inv, SoundCipher, PossibleEvent, NoZero, After, Refs, Room, Roomy;
    if es == [] {
      f' := f;
    } else {
      var n := |es| - 1;
      RoomyPrefix(env, st, es);
      var f1 := HistoryKeepsInv(env, st, f, es[..n]);
      f' := EventKeepsInv(env, AfterAll(env, st, es[..n]), f1, es[n]);
    }
  }

  /** A capsule that a history does not delete reads after it as before it. */
  lemma {:induction false} UndeletedStays(env: Env, st: Store, f: multiset<SegmentId>, es: seq<Event>, cid: CapsuleId)
    requires PossibleHistory(env, es) && SoundCipher(env) && (forall i :: 0 <= i < |es| ==> Spares(es[i], cid))
    requires Inv(env, st, f) && NoZero(st.log) && Roomy(env, st, es) && cid in st.reg.capsules
    ensures cid in AfterAll(env, st, es).reg.capsules
    ensures CapsuleBytes(env, AfterAll(env, st, es), cid) == CapsuleBytes(env, st, cid)
  {
    if es != [] {
      hide Inv, SoundCipher, PossibleEvent, NoZero, After, Refs, CapsuleBytes, Spares, Room, Roomy;
      var n := |es| - 1;
      RoomyPrefix(env, st, es);
      UndeletedStays(env, st, f, es[..n], cid);
      var f1 := HistoryKeepsInv(env, st, f, es[..n]);
      EventKeepsCapsule(env, AfterAll(env, st, es[..n]), f1, es[n], cid);
    }
  }

  // ---------------------------------------------------------------- round trip

  /** A successful write can be read back at once, whatever else the store holds: chunk by chunk it reads as what its
      stored content unpacks to. */
  lemma WriteReads(env: Env, st: Store, f: multiset<SegmentId>, w: Work)
    requires !w.DeleteWork? && Possible(env, w) && SoundCipher(env) && CollisionFree(env)
    requires Inv(env, st, f) && Room(st.log, ChunkCount(w)) && ProgramOf(env, st, w).outcome.Ok?
    ensures var st' := Run(st, ProgramOf(env, st, w).steps);
            w.cid in st'.reg.capsules && CapsuleBytes(env, st', w.cid) == Ok(Stored(env, w))
  {
    hide Inv, SoundCipher, CollisionFree, Decoded, Flatten, Refs, Chunks, Prepare, Run, Arrivals, WriteLoop, CommitLoop, Complete, Landed,
         LandedSteps, FlightInv, Allowed, Takes, ReadSegments, Sealed, Faithful, NoZero;
    if w.SyncWork? {
      SyncReads(env, st, f, w);
    } else if Results(env, w.data, w.policy, w.keys) == [] {
      EmptyReads(env, st, f, w);
    } else {
      var results := Results(env, w.data, w.policy, w.keys);
      ResultsSound(env, w.data, w.policy, w.keys);
      AsyncSuccess(env, st, f, w.cid, |w.data|, w.policy, results, w.arrivals, w.device);
      FlightOfOk(env, st, f, w.policy.dedupe, results, w.arrivals);
      var fl := FlightOf(st, w.policy.dedupe, results, w.arrivals);
      var c := Capsule(|w.data|, fl.ids, w.policy);
      LandedReadsData(env, st, f, w);
      CreateLands(env, st, f, w.policy.dedupe, fl, w.cid, c);
      TakesRun(env, st, f, LandedSteps(fl) + [CreateStep(w.cid, c)], Do(Landed(fl), CreateStep(w.cid, c)), f);
      CreatedReads(env, Landed(fl), w.cid, c);
    }
  }

  lemma SyncReads(env: Env, st: Store, f: multiset<SegmentId>, w: Work)
    requires w.SyncWork? && SoundCipher(env) && CollisionFree(env)
    requires Inv(env, st, f) && Room(st.log, ChunkCount(w)) && ProgramOf(env, st, w).outcome.Ok?
    ensures var st' := Run(st, ProgramOf(env, st, w).steps);
            w.cid in st'.reg.capsules && CapsuleBytes(env, st', w.cid) == Ok(Stored(env, w))
  {
    hide Inv, SoundCipher, CollisionFree, Decoded, Flatten, Refs, Chunks, Prepare, Run, WriteLoop, Allowed, Takes, ReadSegments, Sealed, Faithful, NoZero;
    var feeds := FeedsOf(env, w.data, w.policy, w.keys, w.devices);
    ResultsSound(env, w.data, w.policy, w.keys);
    FeedsFaithful(env, w);
    WriteLoopOk(env, st, f, w.policy.dedupe, feeds);
    WriteLoopReads(env, st, f, w.policy.dedupe, feeds, w.policy.compression, Decoded(env, w));
    var r := WriteLoop(st, w.policy.dedupe, feeds);
    var c := Capsule(|w.data|, r.ids, w.policy);
    LoopRuns(env, st, f, r);
    RunSnoc(st, r.steps, CreateStep(w.cid, c));
    CreatedReads(env, r.st, w.cid, c);
  }

  lemma EmptyReads(env: Env, st: Store, f: multiset<SegmentId>, w: Work)
    requires w.AsyncWork? && Possible(env, w) && Results(env, w.data, w.policy, w.keys) == []
    requires ProgramOf(env, st, w).outcome.Ok?
    ensures var st' := Run(st, ProgramOf(env, st, w).steps);
            w.cid in st'.reg.capsules && CapsuleBytes(env, st', w.cid) == Ok(Stored(env, w))
  {
    hide Prepare, Run;
    ChunksPartition(w.data);
    EmptyStored(env, w);
    var c := Capsule(0, [], w.policy);
    RunOne(st, CreateStep(w.cid, c));
    CreatedReads(env, st, w.cid, c);
  }

  lemma CreatedReads(env: Env, st: Store, cid: CapsuleId, c: Capsule)
    requires cid !in st.reg.capsules
    ensures var st' := Do(st, CreateStep(cid, c));
            cid in st'.reg.capsules && CapsuleBytes(env, st', cid) == ReadSegments(env, st.log, c.policy.compression, c.segments)
  {
  }

  /** Round trip over runs: what a written capsule reads is fixed by the write, through any later history of writes
      (sharing its segments, of any data, under any policy and key version), deletes of other capsules, collections,
      and crashes at any step. It is the data if no chunk is stored as a foreign frame; and only then, for a
      single chunk or where no chunk is misread at another length. */
  lemma RoundTrip(env: Env, st: Store, f: multiset<SegmentId>, w: Work, es: seq<Event>)
    requires !w.DeleteWork? && Possible(env, w) && ProgramOf(env, st, w).outcome.Ok?
    requires PossibleHistory(env, es) && (forall i :: 0 <= i < |es| ==> Spares(es[i], w.cid))
    requires SoundCipher(env) && CollisionFree(env)
    requires Inv(env, st, f) && NoZero(st.log) && Room(st.log, ChunkCount(w)) && Roomy(env, After(env, st, Done(w)), es)
    ensures var read := CapsuleBytes(env, AfterAll(env, After(env, st, Done(w)), es), w.cid);
            && read == Ok(Stored(env, w))
            && (Unambiguous(env, w) ==> read == Ok(w.data))
            && (|w.data| <= SEGMENT_SIZE || SameLengths(Decoded(env, w), Chunks(w.data)) ==> (read == Ok(w.data) <==> Unambiguous(env, w)))
  {
    StoredIff(env, w);
    hide Inv, SoundCipher, CollisionFree, Unambiguous, Stored, Possible, NoZero, Refs, ProgramOf, CapsuleBytes, AfterAll, Spares;
    WriteReads(env, st, f, w);
    var f1 := EventKeepsInv(env, st, f, Done(w));
    UndeletedStays(env, After(env, st, Done(w)), f1, es, w.cid);
  }

  // ---------------------------------------------------------------- from the beginning

  function Empty(): Store { Store(Log([], map[], 0), Catalog(map[], map[], 0, 0)) }

  /** From a store with both files empty: the capsules are the abstract store that the history gives. */
  lemma HistoryFromEmpty(env: Env, es: seq<Event>)
    requires PossibleHistory(env, es)
    requires SoundCipher(env) && CollisionFree(env) && Roomy(env, Empty(), es)
    ensures Shows(env, AfterAll(env, Empty(), es), ExpectedAll(env, Empty(), map[], es))
  {
    EmptyStoreClean(env);
    hide Inv, SoundCipher, CollisionFree, PossibleEvent, Shows, NoZero, After, ExpectedAfter;
    assert Refs(map[]) == multiset{} && |Refs(map[])| == 0;
    var f' := HistoryCorrect(env, Empty(), multiset{}, map[], es);
  }

  /** ... and a write in the middle of a history reads back at its end, whatever was written around it. */
  lemma RoundTripFromEmpty(env: Env, before: seq<Event>, w: Work, after: seq<Event>)
    requires PossibleHistory(env, before) && PossibleHistory(env, after) && !w.DeleteWork? && Possible(env, w)
    requires ProgramOf(env, AfterAll(env, Empty(), before), w).outcome.Ok?
    requires forall i :: 0 <= i < |after| ==> Spares(after[i], w.cid)
    requires SoundCipher(env) && CollisionFree(env) && Roomy(env, Empty(), before)
    requires var st := AfterAll(env, Empty(), before); Room(st.log, ChunkCount(w)) && Roomy(env, After(env, st, Done(w)), after)
    ensures var read := CapsuleBytes(env, AfterAll(env, After(env, AfterAll(env, Empty(), before), Done(w)), after), w.cid);
            && read == Ok(Stored(env, w))
            && (Unambiguous(env, w) ==> read == Ok(w.data))
            && (|w.data| <= SEGMENT_SIZE || SameLengths(Decoded(env, w), Chunks(w.data)) ==> (read == Ok(w.data) <==> Unambiguous(env, w)))
  {
    EmptyStoreClean(env);
    hide Inv, SoundCipher, CollisionFree, Unambiguous, Stored, Possible, NoZero, ProgramOf, CapsuleBytes, AfterAll, Spares, After, PossibleEvent;
    assert Refs(map[]) == multiset{} && |Refs(map[])| == 0;
    var f := HistoryKeepsInv(env, Empty(), multiset{}, before);
    RoundTrip(env, AfterAll(env, Empty(), before), f, w, after);
  }
}
