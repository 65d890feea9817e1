/** What interleaved calls read and write as long as no increment meets a segment that a delete is about to remove: the
    same as if each had run alone. */
module Isolation {
  import opened Types
  import opened Codec
  import opened NvramSim
  import opened Registry
  import opened Store
  import opened Programs
  import opened Concurrency

  /** The segment holds what was prepared for a chunk. */
  predicate Contains(env: Env, l: Log, id: SegmentId, p: Prepared) {
    id in l.segs && Plain(env, l, id).Ok? && Plain(env, l, id) == Decrypt(env, p.encryption, p.data)
  }

  predicate Writing(pc: Pc) { pc.AtChunk? || pc.Found? || PrivateOf(pc).Some? }

  predicate Unfinished(pc: Pc) { pc.Appended? || pc.Labelled? }

  /** The segment list of a write holds its chunks so far, in order. */
  predicate DoneOk(env: Env, l: Log, th: Thread) {
    && |th.holds| == |th.done| + (if Unfinished(th.pc) then 1 else 0)
    && forall i :: 0 <= i < |th.done| ==> Contains(env, l, th.holds[i], th.done[i])
  }

  /** The segment that a write is making. */
  predicate MakingOk(env: Env, l: Log, th: Thread) {
    match th.pc
    case Appended(id, _) =>
      CanStore(th) && th.holds != [] && th.holds[|th.holds| - 1] == id && id in l.segs && RawOf(l, id) == Some(th.todo[0].prep.value.data)
    case Labelled(id) =>
      CanStore(th) && th.holds != [] && th.holds[|th.holds| - 1] == id && Contains(env, l, id, th.todo[0].prep.value)
    case _ => true
  }

  predicate AllSound(env: Env, th: Thread) { forall i :: 0 <= i < |th.todo| ==> Sound(env, th.todo[i]) }

  predicate DataOk(env: Env, l: Log, th: Thread) {
    AllSound(env, th) && (Writing(th.pc) ==> DoneOk(env, l, th) && MakingOk(env, l, th))
  }

  ghost predicate Sane(env: Env, sys: Sys) {
    && Shape(sys) && sys.tainted == {} && Inv(env, sys.st, HeldBy(sys.threads))
    && forall t :: t in sys.threads ==> DataOk(env, sys.st.log, sys.threads[t])
  }

  // ---------------------------------------------------------------- every move is an allowed step

  /** The references that the step is to move are those that move between the calls and the capsules. */
  lemma HeldFollows(sys: Sys, t: Tid)
    requires Shape(sys) && sys.tainted == {} && t in sys.threads && CanMove(sys.threads[t])
    ensures var s := MoveOf(sys.st, sys.threads[t]).0;
            HeldBy(Go(sys, t).threads) == if s.Some? then Held(sys.st, HeldBy(sys.threads), s.value) else HeldBy(sys.threads)
  {
    hide Shape, HeldBy, Do, CanMove, MoveOf, PcOk;
    var th := sys.threads[t];
    var (s, th') := MoveOf(sys.st, th);
    PcOf(sys, t);
    HeldChange(sys.threads, t, th');
    if HandsOver(s) {
      HandedOver(sys, t);
    } else {
      var f := HeldBy(sys.threads);
      forall id ensures HeldBy(Go(sys, t).threads)[id] == (if s.Some? then Held(sys.st, f, s.value) else f)[id] {
        MoveHolds(sys.st, th, id);
        HeldAt(sys, t, id);
        assert (HeldBy(Go(sys, t).threads) + multiset(th.holds))[id] == (f + multiset(th'.holds))[id];
      }
    }
  }

  /** What a step does to the references held, for one segment. */
  lemma HeldAt(sys: Sys, t: Tid, id: SegmentId)
    requires Shape(sys) && sys.tainted == {} && t in sys.threads && CanMove(sys.threads[t])
    requires !HandsOver(MoveOf(sys.st, sys.threads[t]).0)
    ensures var s, f := MoveOf(sys.st, sys.threads[t]).0, HeldBy(sys.threads);
            s.Some? ==> Held(sys.st, f, s.value)[id] + Minus(s, id) == f[id] + Plus(s, id)
  {
    hide HeldBy, Refs, Shape, Tagged, FreshSegment;
    var th := sys.threads[t];
    if th.pc.Zeroed? || th.pc.Unlisted? {
      DoomedAt(sys, t);
      CountsAt(sys, th.pc.id);
    } else if th.pc.AtRef? && th.holds != [] {
      HeldSplit(sys.threads, t);
      assert th.holds[0] in multiset(th.holds);
    }
    NotPublished(sys.st, th);
    hide MoveOf;
  }

  lemma NotPublished(st: Store, th: Thread)
    requires CanMove(th)
    ensures var s := MoveOf(st, th).0; s.Some? ==> !s.value.PublishStep? && (s.value.RemoveStep? ==> DoomedOf(th.pc) == Some(s.value.id))
    ensures var s := MoveOf(st, th).0; s.Some? && s.value.DecStep? ==> th.pc.AtRef? && th.holds != [] && s.value.id == th.holds[0]
  {
    hide Tagged, FreshSegment;
  }

  lemma HandedOver(sys: Sys, t: Tid)
    requires Shape(sys) && t in sys.threads && CanMove(sys.threads[t]) && PcOk(sys, sys.threads[t])
    requires HandsOver(MoveOf(sys.st, sys.threads[t]).0)
    ensures var s := MoveOf(sys.st, sys.threads[t]).0.value; HeldBy(Go(sys, t).threads) == Held(sys.st, HeldBy(sys.threads), s)
  {
    hide Shape, HeldBy, Do, MoveOf, Refs, CanMove, Bad, Rearranges;
    var th, th' := sys.threads[t], Go(sys, t).threads[t];
    HeldChange(sys.threads, t, th');
    HandsWhat(sys.st, th);
    Rearranged(HeldBy(sys.threads), HeldBy(Go(sys, t).threads), multiset(th.holds), multiset(th'.holds));
    HeldOver(sys.st, HeldBy(sys.threads), HeldBy(Go(sys, t).threads), th, MoveOf(sys.st, th).0.value, th');
  }

  /** `b` has been taken and `a` given back. */
  predicate Rearranges(f: multiset<SegmentId>, f': multiset<SegmentId>, a: multiset<SegmentId>, b: multiset<SegmentId>) {
    (b == multiset{} ==> f' == f - a) && (a == multiset{} ==> f' == f + b)
  }

  lemma HeldOver(st: Store, f: multiset<SegmentId>, f': multiset<SegmentId>, th: Thread, s: Step, th': Thread)
    requires Rearranges(f, f', multiset(th.holds), multiset(th'.holds)) && (s.CreateStep? || s.DropStep?)
    requires if s.CreateStep? then s.capsule.segments == th.holds && th'.holds == []
             else th.holds == [] && s.cid in st.reg.capsules && th'.holds == st.reg.capsules[s.cid].segments
    ensures f' == Held(st, f, s)
  {
  }

  lemma HandsWhat(st: Store, th: Thread)
    requires CanMove(th) && HandsOver(MoveOf(st, th).0)
    ensures var (s, th') := MoveOf(st, th);
            if s.value.CreateStep? then s.value.capsule.segments == th.holds && th'.holds == []
            else th.pc.AtCapsule? && s.value.cid in st.reg.capsules && th'.holds == st.reg.capsules[s.value.cid].segments
  {
    hide Tagged, FreshSegment;
  }

  lemma Rearranged(f: multiset<SegmentId>, f': multiset<SegmentId>, a: multiset<SegmentId>, b: multiset<SegmentId>)
    requires f' + a == f + b
    ensures Rearranges(f, f', a, b)
  {
    assert f' == f' + a - a;
  }

  lemma MoveAllowed(env: Env, sys: Sys, t: Tid)
    requires Sane(env, sys) && t in sys.threads && CanMove(sys.threads[t]) && Fits(sys, t)
    ensures var s := MoveOf(sys.st, sys.threads[t]).0; s.Some? ==> Allowed(env, sys.st, HeldBy(sys.threads), s.value)
  {
    hide Shape, HeldBy, Refs, WriteAt, Allowed, MoveOf, PcOk, Inv, DataOk;
    var th := sys.threads[t];
    PcOf(sys, t);
    if th.pc.Appended? {
      TagAllowed(env, sys, t);
    } else if th.pc.Allocated? {
      AppendAllowed(env, sys, t);
    } else if DoomedOf(th.pc).Some? {
      RemoveAllowed(env, sys, t);
    } else {
      SimpleAllowed(env, sys, t);
    }
  }

  lemma RemoveAllowed(env: Env, sys: Sys, t: Tid)
    requires Sane(env, sys) && t in sys.threads && DoomedOf(sys.threads[t].pc).Some?
    ensures var s := MoveOf(sys.st, sys.threads[t]).0; s.Some? && Allowed(env, sys.st, HeldBy(sys.threads), s.value)
  {
    hide Shape, HeldBy, Refs;
    PcOf(sys, t);
    RemoveFits(sys, t);
    MoveTidy(sys, t) by { ShapeParts(sys); }
    hide Inv, DataOk;
  }

  lemma SimpleAllowed(env: Env, sys: Sys, t: Tid)
    requires Sane(env, sys) && t in sys.threads && CanMove(sys.threads[t]) && Fits(sys, t)
    requires var pc := sys.threads[t].pc; !pc.Appended? && !pc.Allocated? && DoomedOf(pc).None?
    ensures var s := MoveOf(sys.st, sys.threads[t]).0; s.Some? ==> Allowed(env, sys.st, HeldBy(sys.threads), s.value)
  {
    hide Shape, HeldBy, Refs, Inv, DataOk;
    var th := sys.threads[t];
    PcOf(sys, t);
    MoveTidy(sys, t) by { ShapeParts(sys); }
    HeldSplit(sys.threads, t);
    if th.pc.AtRef? && th.holds != [] { assert th.holds[0] in multiset(th.holds); }
  }

  lemma ShapeParts(sys: Sys)
    requires Shape(sys)
    ensures AllPcOk(sys) && Indexed(sys.st) && KnownIds(sys.st)
  {
    hide AllPcOk, Indexed, KnownIds, Counts, TaintOk, DoomOk;
  }

  lemma RemoveFits(sys: Sys, t: Tid)
    requires Shape(sys) && sys.tainted == {} && t in sys.threads && DoomedOf(sys.threads[t].pc).Some?
    ensures var id := DoomedOf(sys.threads[t].pc).value; id in sys.st.log.segs && Refs(sys.st.reg.capsules)[id] == 0
  {
    hide Shape, HeldBy, Refs;
    DoomedAt(sys, t);
    CountsAt(sys, DoomedOf(sys.threads[t].pc).value);
  }

  lemma AppendAllowed(env: Env, sys: Sys, t: Tid)
    requires Sane(env, sys) && t in sys.threads && sys.threads[t].pc.Allocated? && PcOk(sys, sys.threads[t])
    ensures var s := MoveOf(sys.st, sys.threads[t]).0; s.Some? && Allowed(env, sys.st, HeldBy(sys.threads), s.value)
  {
    hide Shape, HeldBy, Refs, WriteAt, Hashed;
    assert DataOk(env, sys.st.log, sys.threads[t]);
    assert Sound(env, sys.threads[t].todo[0]);
    LogOkClear(sys.st.log);
  }

  lemma TagAllowed(env: Env, sys: Sys, t: Tid)
    requires Sane(env, sys) && t in sys.threads && sys.threads[t].pc.Appended? && PcOk(sys, sys.threads[t])
    ensures var s := MoveOf(sys.st, sys.threads[t]).0; s.Some? && Allowed(env, sys.st, HeldBy(sys.threads), s.value)
    ensures Contains(env, Go(sys, t).st.log, sys.threads[t].pc.id, sys.threads[t].todo[0].prep.value)
  {
    hide Shape, HeldBy, Refs, WriteAt, Hashed, LogOk, DoneOk;
    var th := sys.threads[t];
    var id, p := th.pc.id, th.todo[0].prep.value;
    assert DataOk(env, sys.st.log, th);
    assert Sound(env, th.todo[0]);
    NewbornUnreferenced(sys, t, id);
    assert sys.st.log.segs[id].deduplicated == false;
    TagReads(env, sys.st, id, p, th.policy.dedupe);
  }

  lemma NewbornUnreferenced(sys: Sys, t: Tid, id: SegmentId)
    requires Shape(sys) && t in sys.threads && id in sys.threads[t].holds && Newborn(sys, id)
    ensures Refs(sys.st.reg.capsules)[id] == 0 && HeldBy(sys.threads)[id] == 1
  {
    hide Shape, Refs;
    HeldSplit(sys.threads, t);
    CountsAt(sys, id);
    hide HeldBy;
    assert id in multiset(sys.threads[t].holds);
  }

  lemma TagReads(env: Env, st: Store, id: SegmentId, p: Prepared, dedupe: bool)
    requires id in st.log.segs && RawOf(st.log, id) == Some(p.data) && Sealed(env, p) && st.log.segs[id].contentHash.None?
    ensures var l := Update(st.log, id, Tagged(st.log.segs[id], p, dedupe)); Contains(env, l, id, p) && HashedAt(env, l, id)
  {
  }

  lemma GoInv(env: Env, sys: Sys, t: Tid)
    requires Sane(env, sys) && t in sys.threads && CanMove(sys.threads[t]) && Fits(sys, t)
    ensures Inv(env, Go(sys, t).st, HeldBy(Go(sys, t).threads))
  {
    hide Shape, HeldBy, Inv, DataOk, Allowed, Do, MoveOf, Held;
    MoveAllowed(env, sys, t);
    HeldFollows(sys, t);
    var s := MoveOf(sys.st, sys.threads[t]).0;
    if s.Some? { StepKeepsInv(env, sys.st, HeldBy(sys.threads), s.value); }
  }

  // ---------------------------------------------------------------- what the segments hold

  /** A move leaves every segment alone that another call holds, and those that the call itself held before it made a new
      one. */
  lemma HeldKept(env: Env, sys: Sys, t: Tid, u: Tid, id: SegmentId)
    requires Sane(env, sys) && t in sys.threads && u in sys.threads && CanMove(sys.threads[t]) && Fits(sys, t) && id in sys.threads[u].holds
    requires t == u && sys.threads[t].pc.Appended? ==> id != sys.threads[t].pc.id
    ensures id in sys.st.log.segs && Kept(sys.st.log, Go(sys, t).st.log, id)
  {
    hide Shape, HeldBy, Inv, DataOk, Allowed, Do, MoveOf, Kept, CountAt;
    HeldCounts(sys, u, id);
    InSegs(sys.st.log.segs, id);
    MoveAllowed(env, sys, t);
    NotTouched(sys, t, u, id);
    var s := MoveOf(sys.st, sys.threads[t]).0;
    InvLog(env, sys);
    if s.Some? { StepKeepsPlaces(env, sys.st, HeldBy(sys.threads), s.value); } else { KeptSame(sys.st.log, id); }
  }

  lemma InSegs(segs: map<SegmentId, Segment>, id: SegmentId)
    requires CountAt(segs, id) > 0
    ensures id in segs
  {
  }

  lemma KeptSame(l: Log, id: SegmentId)
    requires id in l.segs
    ensures Kept(l, l, id)
  {
  }

  lemma InvLog(env: Env, sys: Sys)
    requires Sane(env, sys)
    ensures LogOk(sys.st.log) && Hashed(env, sys.st.log) && Indexed(sys.st)
  {
    hide Shape, HeldBy, DataOk, LogOk, Hashed, Indexed;
  }

  lemma NotTouched(sys: Sys, t: Tid, u: Tid, id: SegmentId)
    requires Shape(sys) && sys.tainted == {} && t in sys.threads && u in sys.threads && CanMove(sys.threads[t]) && id in sys.threads[u].holds
    requires t == u && sys.threads[t].pc.Appended? ==> id != sys.threads[t].pc.id
    ensures var s := MoveOf(sys.st, sys.threads[t]).0; s.Some? ==> !Touches(s.value, id)
  {
    hide Shape, HeldBy, Refs, CountAt;
    var th := sys.threads[t];
    PcOf(sys, t);
    TouchesOwn(sys.st, th);
    HeldCounts(sys, u, id);
    InSegs(sys.st.log.segs, id);
    if DoomedOf(th.pc) == Some(id) { DoomedAt(sys, t); DoomedUncounted(sys.st.log.segs, id); }
    if th.pc.Appended? && th.pc.id == id {
      NewbornUnreferenced(sys, t, id);
      if t != u { HeldByTwo(sys.threads, t, u, id); }
    }
    hide MoveOf;
  }

  lemma HeldByTwo(threads: map<Tid, Thread>, t: Tid, u: Tid, id: SegmentId)
    requires t in threads && u in threads && t != u && id in threads[t].holds && id in threads[u].holds
    ensures HeldBy(threads)[id] >= 2
  {
    HeldTwo(threads, t, u);
    hide HeldBy;
    var a, b := multiset(threads[t].holds), multiset(threads[u].holds);
    assert id in a && id in b && (a + b)[id] >= 2;
  }

  lemma DoomedUncounted(segs: map<SegmentId, Segment>, id: SegmentId)
    requires id in segs && segs[id].refCount == 0
    ensures CountAt(segs, id) == 0
  {
  }

  lemma TouchesOwn(st: Store, th: Thread)
    requires CanMove(th)
    ensures var s := MoveOf(st, th).0;
            s.Some? ==> forall id :: Touches(s.value, id) ==> DoomedOf(th.pc) == Some(id) || (th.pc.Appended? && th.pc.id == id)
  {
    hide Tagged, FreshSegment;
  }

  lemma ContainsKept(env: Env, l: Log, l': Log, id: SegmentId, p: Prepared)
    requires Contains(env, l, id, p) && Kept(l, l', id)
    ensures Contains(env, l', id, p)
  {
  }

  lemma OthersData(env: Env, sys: Sys, t: Tid, u: Tid)
    requires Sane(env, sys) && t in sys.threads && u in sys.threads && t != u && CanMove(sys.threads[t]) && Fits(sys, t)
    ensures DataOk(env, Go(sys, t).st.log, sys.threads[u])
  {
    hide Shape, HeldBy, Inv, Go, Contains, Kept, Sound;
    var th, l, l' := sys.threads[u], sys.st.log, Go(sys, t).st.log;
    assert DataOk(env, l, th);
    if Writing(th.pc) {
      forall i | 0 <= i < |th.done| ensures Contains(env, l', th.holds[i], th.done[i]) {
        HeldKept(env, sys, t, u, th.holds[i]);
        ContainsKept(env, l, l', th.holds[i], th.done[i]);
      }
      if Unfinished(th.pc) {
        var id := th.holds[|th.holds| - 1];
        HeldKept(env, sys, t, u, id);
        KeptRaw(l, l', id);
        if th.pc.Labelled? { ContainsKept(env, l, l', id, th.todo[0].prep.value); }
      }
    }
  }

  lemma KeptRaw(l: Log, l': Log, id: SegmentId)
    requires id in l.segs && Kept(l, l', id)
    ensures id in l'.segs && RawOf(l', id) == RawOf(l, id)
  {
  }

  /** What the call itself has stored before is still there after its move. */
  lemma OwnKept(env: Env, sys: Sys, t: Tid, i: nat)
    requires Sane(env, sys) && t in sys.threads && CanMove(sys.threads[t]) && Fits(sys, t) && Writing(sys.threads[t].pc)
    requires i < |sys.threads[t].done| <= |sys.threads[t].holds|
    ensures Contains(env, Go(sys, t).st.log, sys.threads[t].holds[i], sys.threads[t].done[i])
  {
    hide Shape, HeldBy, Inv, Go, Contains, Kept, Sound, CountAt;
    var th, l, l' := sys.threads[t], sys.st.log, Go(sys, t).st.log;
    assert DataOk(env, l, th);
    if th.pc.Appended? { NewbornLast(sys, t, i); }
    HeldKept(env, sys, t, t, th.holds[i]);
    ContainsKept(env, l, l', th.holds[i], th.done[i]);
  }

  lemma NewbornLast(sys: Sys, t: Tid, i: nat)
    requires Shape(sys) && t in sys.threads && sys.threads[t].pc.Appended? && i < |sys.threads[t].holds| - 1
    requires sys.threads[t].holds[|sys.threads[t].holds| - 1] == sys.threads[t].pc.id
    ensures sys.threads[t].holds[i] != sys.threads[t].pc.id
  {
    hide Shape, HeldBy, Refs;
    var th, n := sys.threads[t], |sys.threads[t].holds| - 1;
    PcOf(sys, t);
    NewbornUnreferenced(sys, t, th.pc.id);
    HeldSplit(sys.threads, t);
    assert th.holds == th.holds[..n] + [th.pc.id];
    assert multiset(th.holds) == multiset(th.holds[..n]) + multiset{th.pc.id};
    assert multiset(th.holds[..n])[th.pc.id] == 0;
    assert th.holds[..n][i] in multiset(th.holds[..n]);
  }

  lemma HitContains(env: Env, sys: Sys, t: Tid)
    requires Sane(env, sys) && CollisionFree(env) && t in sys.threads && sys.threads[t].pc.Found? && CanStore(sys.threads[t])
    requires sys.threads[t].pc.id in sys.st.log.segs
    ensures Contains(env, Go(sys, t).st.log, sys.threads[t].pc.id, sys.threads[t].todo[0].prep.value)
  {
    hide Shape, HeldBy, Refs, LogOk, DoneOk;
    var th := sys.threads[t];
    PcOf(sys, t);
    assert DataOk(env, sys.st.log, th) && Sound(env, th.todo[0]);
    assert HashedAt(env, sys.st.log, th.pc.id);
  }

  lemma AppendHolds(env: Env, sys: Sys, t: Tid)
    requires Sane(env, sys) && t in sys.threads && sys.threads[t].pc.Allocated? && CanStore(sys.threads[t]) && sys.threads[t].todo[0].io.Good?
    ensures var id, l := sys.threads[t].pc.id, Go(sys, t).st.log;
            id in l.segs && RawOf(l, id) == Some(sys.threads[t].todo[0].prep.value.data)
  {
    hide Shape, HeldBy, Refs, DoneOk, Hashed;
    var th := sys.threads[t];
    PcOf(sys, t);
    assert DataOk(env, sys.st.log, th) && Sound(env, th.todo[0]);
    AppendOk(sys.st.log, th.pc.id, th.todo[0].prep.value.data);
  }

  lemma SelfData(env: Env, sys: Sys, t: Tid)
    requires Sane(env, sys) && CollisionFree(env) && t in sys.threads && CanMove(sys.threads[t]) && Fits(sys, t)
    ensures DataOk(env, Go(sys, t).st.log, Go(sys, t).threads[t])
  {
    hide Shape, HeldBy, Inv, Contains, Kept, Sound, Do;
    var th, th', l' := sys.threads[t], Go(sys, t).threads[t], Go(sys, t).st.log;
    assert DataOk(env, sys.st.log, th);
    if Writing(th.pc) {
      forall i | 0 <= i < |th.done| ensures Contains(env, l', th.holds[i], th.done[i]) { OwnKept(env, sys, t, i); }
      if th.pc.Found? && th.pc.id in sys.st.log.segs { HitContains(env, sys, t); }
      if th.pc.Allocated? && th.todo[0].io.Good? { AppendHolds(env, sys, t); }
      if th.pc.Appended? { PcOf(sys, t); TagAllowed(env, sys, t); }
      if th.pc.Labelled? { RegisterSame(sys, t); }
    }
    hide Go;
  }

  lemma RegisterSame(sys: Sys, t: Tid)
    requires t in sys.threads && sys.threads[t].pc.Labelled? && CanMove(sys.threads[t])
    ensures Go(sys, t).st.log == sys.st.log
  {
  }

  // ---------------------------------------------------------------- runs without a bad increment

  /** Every move that is not a bad increment keeps everything: exact counts, disjoint ranges, indexed hashes, and for every
      write that its segments hold its chunks. */
  lemma GoSane(env: Env, sys: Sys, t: Tid)
    requires Sane(env, sys) && CollisionFree(env) && t in sys.threads && Fits(sys, t) && !Bad(sys, t)
    ensures CanMove(sys.threads[t]) && Sane(env, Go(sys, t))
  {
    hide Shape, HeldBy, Inv, DataOk, Fits, MoveOf, Do, Bad;
    GoShape(sys, t);
    GoInv(env, sys, t);
    forall u | u in Go(sys, t).threads ensures DataOk(env, Go(sys, t).st.log, Go(sys, t).threads[u]) {
      if u == t { SelfData(env, sys, t); } else { OthersData(env, sys, t, u); }
    }
  }

  predicate SoundRun(env: Env, run: seq<Action>) {
    forall i :: 0 <= i < |run| && run[i].Begin? ==> AllSound(env, run[i].thread)
  }

  predicate NoBad(states: seq<Sys>, run: seq<Action>) {
    |states| == |run| + 1 && forall i :: 0 <= i < |run| && run[i].Move? ==> !Bad(states[i], run[i].t)
  }

  lemma {:induction false} RunSane(env: Env, states: seq<Sys>, run: seq<Action>, n: nat)
    requires IsRun(states, run) && Roomy(states, run) && NoBad(states, run) && SoundRun(env, run)
    requires Sane(env, states[0]) && CollisionFree(env) && n <= |run|
    ensures Sane(env, states[n])
  {
    hide Sane, Go, New, Fits, Bad, AllSound;
    if n > 0 {
      RunSane(env, states, run, n - 1);
      match run[n - 1] {
        case Begin(t, th) => BeginSane(env, states[n - 1], t, th);
        case Move(t) => GoSane(env, states[n - 1], t);
      }
    }
  }

  lemma BeginSane(env: Env, sys: Sys, t: Tid, th: Thread)
    requires Sane(env, sys) && t !in sys.threads && New(th) && AllSound(env, th)
    ensures Sane(env, sys.(threads := sys.threads[t := th]))
  {
    hide Shape, HeldBy, Inv;
    BeginShape(sys, t, th);
    HeldNew(sys.threads, t, th);
    assert DataOk(env, sys.st.log, th);
    hide DataOk, New;
  }

  /** A store between calls; `left` are the references that failed calls have left behind. */
  function Opening(st: Store, left: seq<SegmentId>): Sys {
    Sys(st, map[0 := Thread(0, 0, Policy(Raw, false, false), [], [], left, Over(false))], {})
  }

  lemma OpeningSane(env: Env, st: Store, left: seq<SegmentId>)
    requires Inv(env, st, multiset(left))
    ensures Sane(env, Opening(st, left))
  {
    hide LogOk, Hashed, Shape;
    OpeningHolds(left);
    OpeningShape(env, st, left);
  }

  lemma OpeningHolds(left: seq<SegmentId>)
    ensures forall st :: HeldBy(Opening(st, left).threads) == multiset(left)
  {
    forall st ensures HeldBy(Opening(st, left).threads) == multiset(left) {
      HeldSplit(Opening(st, left).threads, 0);
      assert Opening(st, left).threads - {0} == map[];
      assert HeldBy(map[]) == multiset{};
    }
  }

  lemma OpeningShape(env: Env, st: Store, left: seq<SegmentId>)
    requires Inv(env, st, multiset(left))
    ensures Shape(Opening(st, left))
  {
    hide LogOk, Hashed, HeldBy, Refs, Flagged, Bounded;
    OpeningHolds(left);
    forall id ensures CountAt(st.log.segs, id) == Refs(st.reg.capsules)[id] + multiset(left)[id] { RefsMember(st.reg.capsules, id); }
  }

  // ---------------------------------------------------------------- what capsules read

  /** What the stored chunks unpack to, one after the other. */
  function Unpacked(env: Env, c: Compression, done: seq<Prepared>): Bytes {
    if done == [] then []
    else
      var p := done[|done| - 1];
      Unpacked(env, c, done[..|done| - 1]) +
      match Decrypt(env, p.encryption, p.data) case Ok(data) => Unpack(env, c, data) case Err(_) => []
  }

  lemma {:induction false} HoldsRead(env: Env, l: Log, c: Compression, ids: seq<SegmentId>, done: seq<Prepared>)
    requires |ids| == |done| && forall i :: 0 <= i < |done| ==> Contains(env, l, ids[i], done[i])
    ensures ReadSegments(env, l, c, ids) == Ok(Unpacked(env, c, done))
  {
    if done != [] {
      var n := |done| - 1;
      HoldsRead(env, l, c, ids[..n], done[..n]);
      assert Contains(env, l, ids[n], done[n]);
    }
  }

  /** The write that makes its capsule among all the others: the capsule reads what the write has stored. */
  lemma CreateReads(env: Env, sys: Sys, t: Tid)
    requires Sane(env, sys) && t in sys.threads && sys.threads[t].pc.AtChunk? && sys.threads[t].todo == []
    requires sys.threads[t].cid !in sys.st.reg.capsules
    ensures var th, st' := sys.threads[t], Go(sys, t).st;
            && th.cid in st'.reg.capsules && st'.reg.capsules[th.cid].size == th.size
            && CapsuleBytes(env, st', th.cid) == Ok(Unpacked(env, th.policy.compression, th.done))
  {
    hide Shape, HeldBy, Inv, Contains;
    var th := sys.threads[t];
    assert DataOk(env, sys.st.log, th);
    HoldsRead(env, sys.st.log, th.policy.compression, th.holds, th.done);
    hide ReadSegments, Unpacked;
  }

  /** No step of any other call changes what a capsule reads, as long as it is there. */
  lemma MoveKeepsReads(env: Env, sys: Sys, t: Tid, cid: CapsuleId)
    requires Sane(env, sys) && t in sys.threads && CanMove(sys.threads[t]) && Fits(sys, t)
    requires cid in sys.st.reg.capsules && cid in Go(sys, t).st.reg.capsules
    ensures CapsuleBytes(env, Go(sys, t).st, cid) == CapsuleBytes(env, sys.st, cid)
  {
    hide Shape, HeldBy, Inv, DataOk, Allowed, Do, MoveOf, CapsuleBytes;
    MoveAllowed(env, sys, t);
    var s := MoveOf(sys.st, sys.threads[t]).0;
    if s.Some? { StepKeepsReads(env, sys.st, HeldBy(sys.threads), s.value, cid); }
  }

  /** Over every run without a bad increment, whatever calls begin and however they interleave: counts are exact, no
      segment of a capsule is missing, and a capsule that is there all along reads the same at the end as at the start. */
  lemma {:induction false} RunKeepsReads(env: Env, states: seq<Sys>, run: seq<Action>, n: nat, cid: CapsuleId)
    requires IsRun(states, run) && Roomy(states, run) && NoBad(states, run) && SoundRun(env, run)
    requires Sane(env, states[0]) && CollisionFree(env) && n <= |run|
    requires forall i :: 0 <= i <= n ==> cid in states[i].st.reg.capsules
    ensures Inv(env, states[n].st, HeldBy(states[n].threads))
    ensures CapsuleBytes(env, states[n].st, cid) == CapsuleBytes(env, states[0].st, cid)
  {
    hide Shape, HeldBy, Inv, DataOk, Go, New, Fits, Bad, AllSound, CapsuleBytes, SoundRun;
    RunSane(env, states, run, n);
    if n > 0 {
      RunSane(env, states, run, n - 1);
      RunKeepsReads(env, states, run, n - 1, cid);
      match run[n - 1] {
        case Begin(t, th) =>
        case Move(t) => MoveKeepsReads(env, states[n - 1], t, cid);
      }
    }
  }
}
