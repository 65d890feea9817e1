/** Any number of sequential writes and deletes at once, one call on the log or the registry at a time. */
module Concurrency {
  import opened Types
  import opened Codec
  import opened NvramSim
  import opened Registry
  import opened Store
  import opened Programs

  type Tid = nat

  /** Where a call stands. A write looks a chunk's hash up and, in a step of its own, increments what it has found; or it
      allocates, appends, tags and registers. A delete decrements, and at zero takes first the content entry and then the
      segment away. */
  datatype Pc =
    | AtChunk
    | Found(id: SegmentId)
    | Allocated(id: SegmentId)
    | Appended(id: SegmentId, segment: Segment)
    | Labelled(id: SegmentId)
    | AtCapsule
    | AtRef
    | Zeroed(id: SegmentId, hash: Option<ContentHash>)
    | Unlisted(id: SegmentId)
    | Over(ok: bool)

  /** `holds` are the references that the call has taken, or that it has still to give back; a write that failed goes on
      holding its own. `done` are the chunks that it has stored, `todo` those still to store. */
  datatype Thread = Thread(cid: CapsuleId, size: nat, policy: Policy, done: seq<Prepared>, todo: seq<Feed>, holds: seq<SegmentId>, pc: Pc)

  /** `tainted` remembers the segments that were incremented while a delete was about to remove them. */
  datatype Sys = Sys(st: Store, threads: map<Tid, Thread>, tainted: set<SegmentId>)

  function Fails(th: Thread): Thread { th.(pc := Over(false)) }

  /** The chunk is stored. */
  function Advanced(th: Thread, p: Prepared): Thread
    requires th.todo != []
  {
    th.(done := th.done + [p], todo := th.todo[1..], pc := AtChunk)
  }

  /** The next move of a call: at most one step on the store. */
  function MoveOf(st: Store, th: Thread): (Option<Step>, Thread)
    requires CanMove(th)
  {
    match th.pc
    case AtChunk =>
      if th.todo == [] then
        if th.cid in st.reg.capsules then (None, Fails(th))
        else (Some(CreateStep(th.cid, Capsule(th.size, th.holds, th.policy))), th.(holds := [], pc := Over(true)))
      else if th.todo[0].prep.Err? then (None, Fails(th))
      else
        var p := th.todo[0].prep.value;
        if th.policy.dedupe && p.hash in st.reg.content then (None, th.(pc := Found(st.reg.content[p.hash])))
        else (Some(AllocStep), th.(pc := Allocated(st.reg.nextId)))
    case Found(id) =>
      if id in st.log.segs then (Some(IncStep(id)), Advanced(th, th.todo[0].prep.value).(holds := th.holds + [id]))
      else (None, Fails(th))
    case Allocated(id) =>
      var p, io := th.todo[0].prep.value, th.todo[0].io;
      if io.Torn? then (Some(WriteStep(st.log.next, p.data[..Min(io.bytes, |p.data|)])), Fails(th))
      else (Some(AppendStep(id, p.data)), th.(holds := th.holds + [id], pc := Appended(id, FreshSegment(id, st.log.next, |p.data|))))
    case Appended(id, segment) =>
      var p := th.todo[0].prep.value;
      (Some(UpdateStep(id, Tagged(segment, p, th.policy.dedupe))),
       if th.policy.dedupe then th.(pc := Labelled(id)) else Advanced(th, p))
    case Labelled(id) => (Some(RegisterStep(th.todo[0].prep.value.hash, id)), Advanced(th, th.todo[0].prep.value))
    case AtCapsule =>
      if th.cid in st.reg.capsules then (Some(DropStep(th.cid)), th.(holds := st.reg.capsules[th.cid].segments, pc := AtRef))
      else (None, Fails(th))
    case AtRef =>
      if th.holds == [] then (None, th.(pc := Over(true)))
      else
        var id := th.holds[0];
        if id !in st.log.segs || st.log.segs[id].refCount == 0 then (None, Fails(th))
        else
          var s := st.log.segs[id];
          (Some(DecStep(id)), th.(holds := th.holds[1..], pc := if s.refCount == 1 then Zeroed(id, s.contentHash) else AtRef))
    case Zeroed(id, hash) =>
      (match hash
       case None => (Some(RemoveStep(id)), th.(pc := AtRef))
       case Some(h) => (Some(DeregisterStep(h, id)), th.(pc := Unlisted(id))))
    case Unlisted(id) => (Some(RemoveStep(id)), th.(pc := AtRef))
    case Over(_) => (None, th)
  }

  /** The chunk at hand could be prepared. */
  predicate CanStore(th: Thread) { th.todo != [] && th.todo[0].prep.Ok? }

  predicate CanMove(th: Thread) {
    th.pc.Found? || th.pc.Allocated? || th.pc.Appended? || th.pc.Labelled? ==> CanStore(th)
  }

  /** A delete is between the decrement to zero and the removal of the segment. */
  predicate Doomed(threads: map<Tid, Thread>, id: SegmentId) {
    exists t :: t in threads && DoomedOf(threads[t].pc) == Some(id)
  }

  function DoomedOf(pc: Pc): Option<SegmentId> {
    match pc
    case Zeroed(id, _) => Some(id)
    case Unlisted(id) => Some(id)
    case _ => None
  }

  /** The call increments a segment that a delete is about to remove. */
  predicate Bad(sys: Sys, t: Tid) {
    t in sys.threads && sys.threads[t].pc.Found? && sys.threads[t].pc.id in sys.st.log.segs && Doomed(sys.threads, sys.threads[t].pc.id)
  }

  function Go(sys: Sys, t: Tid): Sys
    requires t in sys.threads && CanMove(sys.threads[t])
  {
    var th := sys.threads[t];
    var (s, th') := MoveOf(sys.st, th);
    Sys(if s.Some? then Do(sys.st, s.value) else sys.st, sys.threads[t := th'],
        if Bad(sys, t) then sys.tainted + {th.pc.id} else sys.tainted)
  }

  // ---------------------------------------------------------------- references held by all calls

  ghost function HeldBy(threads: map<Tid, Thread>): multiset<SegmentId>
    decreases |threads|
  {
    if threads == map[] then multiset{}
    else
      var t :| t in threads;
      multiset(threads[t].holds) + HeldBy(threads - {t})
  }

  lemma {:induction false} HeldSplit(threads: map<Tid, Thread>, t: Tid)
    requires t in threads
    ensures HeldBy(threads) == multiset(threads[t].holds) + HeldBy(threads - {t})
    decreases |threads|
  {
    var d :| d in threads && HeldBy(threads) == multiset(threads[d].holds) + HeldBy(threads - {d});
    if d != t {
      HeldSplit(threads - {d}, t);
      HeldSplit(threads - {t}, d);
      assert threads - {d} - {t} == threads - {t} - {d};
    }
  }

  lemma HeldChange(threads: map<Tid, Thread>, t: Tid, th: Thread)
    requires t in threads
    ensures HeldBy(threads[t := th]) + multiset(threads[t].holds) == HeldBy(threads) + multiset(th.holds)
    ensures multiset(threads[t].holds) <= HeldBy(threads)
  {
    HeldSplit(threads, t);
    HeldSplit(threads[t := th], t);
    assert threads[t := th] - {t} == threads - {t};
  }

  lemma HeldNew(threads: map<Tid, Thread>, t: Tid, th: Thread)
    requires t !in threads && th.holds == []
    ensures HeldBy(threads[t := th]) == HeldBy(threads)
  {
    HeldSplit(threads[t := th], t);
    assert threads[t := th] - {t} == threads;
  }

  lemma HeldTwo(threads: map<Tid, Thread>, t: Tid, u: Tid)
    requires t in threads && u in threads && t != u
    ensures multiset(threads[t].holds) + multiset(threads[u].holds) <= HeldBy(threads)
  {
    HeldSplit(threads, t);
    HeldSplit(threads - {t}, u);
  }

  // ---------------------------------------------------------------- what every interleaving keeps

  /** A new segment that only its writer knows. */
  function PrivateOf(pc: Pc): Option<SegmentId> {
    match pc
    case Allocated(id) => Some(id)
    case Appended(id, _) => Some(id)
    case Labelled(id) => Some(id)
    case _ => None
  }

  predicate Private(threads: map<Tid, Thread>, id: SegmentId) {
    exists t :: t in threads && PrivateOf(threads[t].pc) == Some(id)
  }

  predicate Newborn(sys: Sys, id: SegmentId) {
    && id < sys.st.reg.nextId && id !in sys.tainted && Unindexed(sys.st, id)
    && id in sys.st.log.segs && sys.st.log.segs[id].refCount == 1
  }

  /** What a call relies on where it stands. */
  predicate PcOk(sys: Sys, th: Thread) {
    match th.pc
    case Found(id) =>
      && CanStore(th) && id < sys.st.reg.nextId && !Private(sys.threads, id)
      && (id in sys.st.log.segs ==> sys.st.log.segs[id].contentHash == Some(th.todo[0].prep.value.hash))
    case Allocated(id) =>
      CanStore(th) && id < sys.st.reg.nextId && id !in sys.st.log.segs && id !in sys.tainted && Unindexed(sys.st, id)
    case Appended(id, segment) =>
      CanStore(th) && Newborn(sys, id) && sys.st.log.segs[id] == segment && segment.contentHash.None? && id in th.holds
    case Labelled(id) =>
      CanStore(th) && Newborn(sys, id) && sys.st.log.segs[id].contentHash == Some(th.todo[0].prep.value.hash) && id in th.holds
    case Zeroed(id, hash) =>
      && id < sys.st.reg.nextId && !Private(sys.threads, id)
      && (id in sys.st.log.segs ==> sys.st.log.segs[id].contentHash == hash)
    case Unlisted(id) => id < sys.st.reg.nextId && !Private(sys.threads, id) && Unindexed(sys.st, id)
    case AtCapsule => th.holds == []
    case _ => true
  }

  predicate AllPcOk(sys: Sys) { forall t :: t in sys.threads ==> PcOk(sys, sys.threads[t]) }

  predicate PrivateApart(threads: map<Tid, Thread>) {
    forall t, u :: t in threads && u in threads && t != u && PrivateOf(threads[t].pc).Some? ==> PrivateOf(threads[t].pc) != PrivateOf(threads[u].pc)
  }

  function CountAt(segs: map<SegmentId, Segment>, id: SegmentId): nat { if id in segs then segs[id].refCount else 0 }

  /** The counts are exact but for the tainted segments. */
  ghost predicate Counts(sys: Sys) {
    forall id :: id !in sys.tainted ==> CountAt(sys.st.log.segs, id) == Refs(sys.st.reg.capsules)[id] + HeldBy(sys.threads)[id]
  }

  predicate KnownIds(st: Store) { forall id :: id in st.log.segs ==> id < st.reg.nextId }

  /** A tainted segment is gone, or about to go. */
  predicate TaintOk(sys: Sys) {
    forall id :: id in sys.tainted ==>
      id < sys.st.reg.nextId && !Private(sys.threads, id) && (id in sys.st.log.segs ==> Doomed(sys.threads, id))
  }

  /** Until it is incremented, a doomed segment stays at zero, and one delete dooms it. */
  predicate DoomOk(sys: Sys) {
    && (forall t :: t in sys.threads && DoomedOf(sys.threads[t].pc).Some? ==>
          var id := DoomedOf(sys.threads[t].pc).value;
          id !in sys.tainted ==> id in sys.st.log.segs && sys.st.log.segs[id].refCount == 0)
    && forall t, u :: t in sys.threads && u in sys.threads && t != u ==> DoomedApart(sys, sys.threads[t].pc, sys.threads[u].pc)
  }

  predicate DoomedApart(sys: Sys, a: Pc, b: Pc) {
    DoomedOf(a).Some? && DoomedOf(a) == DoomedOf(b) ==> DoomedOf(a).value in sys.tainted
  }

  ghost predicate Shape(sys: Sys) {
    && AllPcOk(sys) && PrivateApart(sys.threads) && Indexed(sys.st) && KnownIds(sys.st) && Counts(sys) && TaintOk(sys) && DoomOk(sys)
  }

  lemma PcCanMove(sys: Sys, t: Tid)
    requires AllPcOk(sys) && t in sys.threads
    ensures CanMove(sys.threads[t]) && PcOk(sys, sys.threads[t])
  {
  }

  // ---------------------------------------------------------------- one move

  /** The segment that the move is about, if it changes its record or its content entries. */
  function Subject(st: Store, th: Thread): Option<SegmentId> {
    match th.pc
    case Found(id) => Some(id)
    case Allocated(id) => Some(id)
    case Appended(id, _) => Some(id)
    case Labelled(id) => Some(id)
    case AtRef => if th.holds == [] then None else Some(th.holds[0])
    case Zeroed(id, _) => Some(id)
    case Unlisted(id) => Some(id)
    case _ => None
  }

  /** Of any other segment a move changes neither the record nor makes it indexed; of its own it keeps the hash, unless
      it is private to the call. */
  ghost predicate Confined(st: Store, st': Store, subject: Option<SegmentId>, mine: bool) {
    && st.reg.nextId <= st'.reg.nextId
    && (forall id :: Some(id) != subject ==>
          && (id in st'.log.segs <==> id in st.log.segs)
          && (id in st.log.segs ==> st'.log.segs[id] == st.log.segs[id])
          && (Unindexed(st, id) ==> Unindexed(st', id)))
    && (subject.Some? && !mine ==>
          var id := subject.value;
          && (id in st'.log.segs ==> id in st.log.segs && st'.log.segs[id].contentHash == st.log.segs[id].contentHash)
          && (Unindexed(st, id) ==> Unindexed(st', id)))
  }

  function StepSubject(s: Step): Option<SegmentId> {
    match s
    case AppendStep(id, _) => Some(id)
    case UpdateStep(id, _) => Some(id)
    case IncStep(id) => Some(id)
    case DecStep(id) => Some(id)
    case RemoveStep(id) => Some(id)
    case RegisterStep(_, id) => Some(id)
    case DeregisterStep(_, id) => Some(id)
    case _ => None
  }

  predicate Makes(s: Step) { s.AppendStep? || s.UpdateStep? || s.RegisterStep? }

  lemma StepConfined(st: Store, s: Step)
    requires !s.PublishStep?
    ensures Confined(st, Do(st, s), StepSubject(s), Makes(s))
  {
    hide WriteAt;
  }

  lemma StepOfMove(st: Store, th: Thread)
    requires CanMove(th)
    ensures var s := MoveOf(st, th).0;
            s.Some? ==>
              && !s.value.PublishStep? && (StepSubject(s.value).None? || StepSubject(s.value) == Subject(st, th))
              && (Makes(s.value) ==> PrivateOf(th.pc).Some?)
  {
    hide Tagged;
  }

  lemma MoveConfined(sys: Sys, t: Tid)
    requires t in sys.threads && CanMove(sys.threads[t])
    ensures Confined(sys.st, Go(sys, t).st, Subject(sys.st, sys.threads[t]), PrivateOf(sys.threads[t].pc).Some?)
  {
    var th := sys.threads[t];
    StepOfMove(sys.st, th);
    var s := MoveOf(sys.st, th).0;
    if s.Some? { StepConfined(sys.st, s.value); }
    hide Do, MoveOf;
  }

  // ---------------------------------------------------------------- the other calls

  /** A call's own segment is nobody else's business. */
  lemma NotMine(sys: Sys, t: Tid, u: Tid)
    requires Shape(sys) && t in sys.threads && u in sys.threads && t != u && PrivateOf(sys.threads[u].pc).Some?
    ensures Subject(sys.st, sys.threads[t]) != PrivateOf(sys.threads[u].pc)
  {
    hide HeldBy, Refs, Unindexed;
    var th, id := sys.threads[t], PrivateOf(sys.threads[u].pc).value;
    assert PcOk(sys, th) && PcOk(sys, sys.threads[u]) && Private(sys.threads, id);
    if th.pc.AtRef? && th.holds != [] && th.holds[0] == id {
      HeldTwo(sys.threads, t, u);
      assert id in multiset(th.holds);
      HeldTwice(sys, t, u, id);
    }
  }

  lemma HeldTwice(sys: Sys, t: Tid, u: Tid, id: SegmentId)
    requires Counts(sys) && id !in sys.tainted && id in HeldBy(sys.threads) && t in sys.threads && u in sys.threads
    requires multiset(sys.threads[t].holds) + multiset(sys.threads[u].holds) <= HeldBy(sys.threads)
    ensures id in sys.st.log.segs && sys.st.log.segs[id].refCount >= multiset(sys.threads[t].holds)[id] + multiset(sys.threads[u].holds)[id]
  {
    hide HeldBy, Refs;
    assert CountAt(sys.st.log.segs, id) == Refs(sys.st.reg.capsules)[id] + HeldBy(sys.threads)[id];
  }

  /** What is private afterwards was private, or has just been allocated. */
  lemma PrivateAfter(sys: Sys, t: Tid, id: SegmentId)
    requires t in sys.threads && CanMove(sys.threads[t]) && Private(Go(sys, t).threads, id)
    ensures Private(sys.threads, id) || id == sys.st.reg.nextId
  {
    hide Do;
    var u :| u in Go(sys, t).threads && PrivateOf(Go(sys, t).threads[u].pc) == Some(id);
    if u == t {
      if PrivateOf(sys.threads[t].pc) == Some(id) { assert Private(sys.threads, id); }
    } else {
      assert Private(sys.threads, id);
    }
  }

  lemma OthersOk(sys: Sys, t: Tid, u: Tid)
    requires Shape(sys) && t in sys.threads && u in sys.threads && t != u && CanMove(sys.threads[t])
    ensures PcOk(Go(sys, t), sys.threads[u])
  {
    var sys', pc := Go(sys, t), sys.threads[u].pc;
    MoveConfined(sys, t);
    if PrivateOf(pc).Some? {
      NotMine(sys, t, u);
      TaintsFound(sys, t);
    }
    var id := IdOf(pc);
    if id.Some? && PrivateOf(pc).None? && Private(sys'.threads, id.value) { PrivateAfter(sys, t, id.value); }
    assert PcOk(sys, sys.threads[u]);
    hide Shape, HeldBy, Refs, MoveOf, Unindexed, Private, Do;
  }

  function IdOf(pc: Pc): Option<SegmentId> {
    match pc
    case Found(id) => Some(id)
    case Zeroed(id, _) => Some(id)
    case Unlisted(id) => Some(id)
    case _ => PrivateOf(pc)
  }

  /** Only a segment that has been looked up is tainted, and no private one can be. */
  lemma TaintsFound(sys: Sys, t: Tid)
    requires t in sys.threads && CanMove(sys.threads[t]) && AllPcOk(sys)
    ensures Go(sys, t).tainted == sys.tainted || (sys.threads[t].pc.Found? && Go(sys, t).tainted == sys.tainted + {sys.threads[t].pc.id})
    ensures sys.threads[t].pc.Found? ==> !Private(sys.threads, sys.threads[t].pc.id)
  {
    hide MoveOf, Do;
    assert PcOk(sys, sys.threads[t]);
  }

  // ---------------------------------------------------------------- the call itself

  lemma SelfOk(sys: Sys, t: Tid)
    requires Shape(sys) && t in sys.threads && CanMove(sys.threads[t])
    ensures PcOk(Go(sys, t), Go(sys, t).threads[t])
  {
    var sys', th := Go(sys, t), sys.threads[t];
    var th' := sys'.threads[t];
    assert PcOk(sys, th);
    TaintsFound(sys, t);
    if th.pc.AtChunk? || th.pc.Allocated? || th.pc.Appended? || th.pc.Labelled? {
      WriterOk(sys, t);
    } else if th.pc.AtRef? || th.pc.Zeroed? {
      DeleterOk(sys, t);
    }
  }

  /** What the content index gives, or the allocator, is not private to anyone. */
  lemma ListedIsPublic(sys: Sys, h: ContentHash)
    requires Shape(sys) && h in sys.st.reg.content
    ensures !Private(sys.threads, sys.st.reg.content[h]) && sys.st.reg.content[h] < sys.st.reg.nextId
  {
    hide HeldBy, Refs;
    var id := sys.st.reg.content[h];
    if Private(sys.threads, id) {
      var u :| u in sys.threads && PrivateOf(sys.threads[u].pc) == Some(id);
      PrivateUnindexed(sys, u);
    }
  }

  lemma PrivateUnindexed(sys: Sys, u: Tid)
    requires AllPcOk(sys) && u in sys.threads && PrivateOf(sys.threads[u].pc).Some?
    ensures Unindexed(sys.st, PrivateOf(sys.threads[u].pc).value) && PrivateOf(sys.threads[u].pc).value < sys.st.reg.nextId
  {
    assert PcOk(sys, sys.threads[u]);
  }

  lemma StillPublic(sys: Sys, t: Tid, id: SegmentId)
    requires t in sys.threads && CanMove(sys.threads[t]) && id < sys.st.reg.nextId && !Private(sys.threads, id)
    ensures !Private(Go(sys, t).threads, id)
  {
    if Private(Go(sys, t).threads, id) { PrivateAfter(sys, t, id); }
  }

  lemma WriterOk(sys: Sys, t: Tid)
    requires Shape(sys) && t in sys.threads && CanMove(sys.threads[t]) && PcOk(sys, sys.threads[t])
    requires sys.threads[t].pc.AtChunk? || PrivateOf(sys.threads[t].pc).Some?
    ensures PcOk(Go(sys, t), Go(sys, t).threads[t])
  {
    hide HeldBy, Refs, Private, WriteAt, Counts, DoomOk, PrivateApart;
    var th := sys.threads[t];
    if th.pc.AtChunk? && CanStore(th) {
      var h := th.todo[0].prep.value.hash;
      if h in sys.st.reg.content {
        ListedIsPublic(sys, h);
        StillPublic(sys, t, sys.st.reg.content[h]);
      }
    }
  }

  lemma DeleterOk(sys: Sys, t: Tid)
    requires Shape(sys) && t in sys.threads && PcOk(sys, sys.threads[t]) && (sys.threads[t].pc.AtRef? || sys.threads[t].pc.Zeroed?)
    ensures PcOk(Go(sys, t), Go(sys, t).threads[t])
  {
    hide HeldBy, Refs, Private, WriteAt, Counts, DoomOk, PrivateApart;
    var th := sys.threads[t];
    if th.pc.Zeroed? {
      StillPublic(sys, t, th.pc.id);
      assert th.pc.hash.Some? && th.pc.id !in sys.st.log.segs ==> Unindexed(sys.st, th.pc.id);
    } else if th.holds != [] && th.holds[0] in sys.st.log.segs {
      HeldIsPublic(sys, t, th.holds[0]);
      StillPublic(sys, t, th.holds[0]);
    }
  }

  /** What a delete has to give back is not private to a writer. */
  lemma HeldIsPublic(sys: Sys, t: Tid, id: SegmentId)
    requires Shape(sys) && t in sys.threads && sys.threads[t].pc.AtRef? && sys.threads[t].holds != [] && sys.threads[t].holds[0] == id
    ensures !Private(sys.threads, id)
  {
    if Private(sys.threads, id) {
      var u :| u in sys.threads && PrivateOf(sys.threads[u].pc) == Some(id);
      hide Shape;
      NotMine(sys, t, u);
    }
  }

  lemma GoPcs(sys: Sys, t: Tid)
    requires Shape(sys) && t in sys.threads && CanMove(sys.threads[t])
    ensures AllPcOk(Go(sys, t))
  {
    var sys' := Go(sys, t);
    hide Shape, PcOk, MoveOf, Do, Bad;
    forall u | u in sys'.threads ensures PcOk(sys', sys'.threads[u]) {
      if u == t { SelfOk(sys, t); } else { OthersOk(sys, t, u); }
    }
  }

  lemma NextPrivate(st: Store, th: Thread)
    requires CanMove(th)
    ensures var pc := MoveOf(st, th).1.pc; PrivateOf(pc).Some? ==> PrivateOf(pc) == PrivateOf(th.pc) || PrivateOf(pc) == Some(st.reg.nextId)
  {
    hide Tagged, FreshSegment;
  }

  lemma GoPrivates(sys: Sys, t: Tid)
    requires Shape(sys) && t in sys.threads && CanMove(sys.threads[t])
    ensures PrivateApart(Go(sys, t).threads)
  {
    NextPrivate(sys.st, sys.threads[t]);
    forall u | u in sys.threads ensures PrivateOf(sys.threads[u].pc).Some? ==> PrivateOf(sys.threads[u].pc).value < sys.st.reg.nextId {
      if PrivateOf(sys.threads[u].pc).Some? { PrivateUnindexed(sys, u); }
    }
    hide MoveOf, Do, PcOk, AllPcOk, Counts, TaintOk, DoomOk, Bad, Indexed, KnownIds, PrivateOf;
  }

  /** The step does not leave the content index pointing nowhere. */
  predicate Tidy(st: Store, s: Step) {
    match s
    case AppendStep(id, _) => id !in st.log.segs && id < st.reg.nextId
    case UpdateStep(id, _) => id in st.log.segs && Unindexed(st, id)
    case RemoveStep(id) => Unindexed(st, id)
    case RegisterStep(h, id) => id in st.log.segs && st.log.segs[id].contentHash == Some(h)
    case PublishStep(_) => false
    case _ => true
  }

  lemma TidyKeeps(st: Store, s: Step)
    requires Indexed(st) && KnownIds(st) && Tidy(st, s)
    ensures Indexed(Do(st, s)) && KnownIds(Do(st, s))
  {
    hide WriteAt;
  }

  lemma MoveTidy(sys: Sys, t: Tid)
    requires AllPcOk(sys) && Indexed(sys.st) && t in sys.threads && CanMove(sys.threads[t])
    ensures var s := MoveOf(sys.st, sys.threads[t]).0; s.Some? ==> Tidy(sys.st, s.value)
  {
    hide Private, Tagged;
    var th := sys.threads[t];
    assert PcOk(sys, th);
    if th.pc.Zeroed? && th.pc.hash.None? { assert Unindexed(sys.st, th.pc.id); }
  }

  lemma GoIndexed(sys: Sys, t: Tid)
    requires Shape(sys) && t in sys.threads && CanMove(sys.threads[t])
    ensures Indexed(Go(sys, t).st) && KnownIds(Go(sys, t).st)
  {
    MoveTidy(sys, t);
    var s := MoveOf(sys.st, sys.threads[t]).0;
    if s.Some? { TidyKeeps(sys.st, s.value); }
    hide MoveOf, Do;
  }

  // ---------------------------------------------------------------- counts

  /** The increment, if the move is one, does not saturate. */
  predicate Fits(sys: Sys, t: Tid) {
    t in sys.threads && sys.threads[t].pc.Found? && sys.threads[t].pc.id in sys.st.log.segs ==>
      sys.st.log.segs[sys.threads[t].pc.id].refCount < U32_MAX
  }

  function Plus(s: Option<Step>, id: SegmentId): nat {
    match s
    case Some(AppendStep(i, _)) => if i == id then 1 else 0
    case Some(IncStep(i)) => if i == id then 1 else 0
    case _ => 0
  }

  function Minus(s: Option<Step>, id: SegmentId): nat {
    match s
    case Some(DecStep(i)) => if i == id then 1 else 0
    case _ => 0
  }

  /** The step changes the count of `id` as it should. */
  predicate Regular(st: Store, s: Step, id: SegmentId) {
    match s
    case AppendStep(i, _) => i !in st.log.segs
    case UpdateStep(i, segment) => i in st.log.segs && segment.refCount == st.log.segs[i].refCount
    case IncStep(i) => i in st.log.segs && st.log.segs[i].refCount < U32_MAX
    case DecStep(i) => i in st.log.segs && st.log.segs[i].refCount > 0
    case RemoveStep(i) => i == id ==> CountAt(st.log.segs, id) == 0
    case PublishStep(_) => false
    case _ => true
  }

  lemma StepCount(st: Store, s: Step, id: SegmentId)
    requires Regular(st, s, id)
    ensures CountAt(Do(st, s).log.segs, id) + Minus(Some(s), id) == CountAt(st.log.segs, id) + Plus(Some(s), id)
  {
    hide WriteAt;
  }

  lemma MoveRegular(sys: Sys, t: Tid, id: SegmentId)
    requires Shape(sys) && t in sys.threads && CanMove(sys.threads[t]) && Fits(sys, t) && id !in sys.tainted
    ensures var s := MoveOf(sys.st, sys.threads[t]).0; s.Some? ==> Regular(sys.st, s.value, id)
  {
    hide Refs, HeldBy, Counts, TaintOk, PrivateApart, Indexed, KnownIds, Private;
    var th := sys.threads[t];
    assert PcOk(sys, th);
    assert DoomedOf(th.pc) == Some(id) ==> CountAt(sys.st.log.segs, id) == 0;
  }

  predicate HandsOver(s: Option<Step>) { s.Some? && (s.value.CreateStep? || s.value.DropStep?) }

  lemma MoveHolds(st: Store, th: Thread, id: SegmentId)
    requires CanMove(th)
    ensures var (s, th') := MoveOf(st, th); HandsOver(s) || multiset(th'.holds)[id] + Minus(s, id) == multiset(th.holds)[id] + Plus(s, id)
  {
    if th.pc.Found? || th.pc.Allocated? {
      HoldsMore(th.holds, th.pc.id, id);
      hide Tagged, FreshSegment;
    } else if th.pc.AtRef? {
      if th.holds != [] { HoldsLess(th.holds, id); }
      hide Tagged, FreshSegment;
    } else {
      HoldsStay(st, th, id);
      hide MoveOf;
    }
  }

  lemma HoldsStay(st: Store, th: Thread, id: SegmentId)
    requires CanMove(th) && !th.pc.Found? && !th.pc.Allocated? && !th.pc.AtRef?
    ensures var (s, th') := MoveOf(st, th); HandsOver(s) || (th'.holds == th.holds && Plus(s, id) == 0 && Minus(s, id) == 0)
  {
    hide Tagged, FreshSegment;
  }

  lemma HoldsMore(holds: seq<SegmentId>, i: SegmentId, id: SegmentId)
    ensures multiset(holds + [i])[id] == multiset(holds)[id] + if i == id then 1 else 0
  {
    assert multiset(holds + [i]) == multiset(holds) + multiset{i};
  }

  lemma HoldsLess(holds: seq<SegmentId>, id: SegmentId)
    requires holds != []
    ensures multiset(holds)[id] == multiset(holds[1..])[id] + if holds[0] == id then 1 else 0
  {
    assert holds == [holds[0]] + holds[1..];
    assert multiset(holds) == multiset{holds[0]} + multiset(holds[1..]);
  }

  /** Making or dropping a capsule hands its references over; nothing else touches capsules. */
  lemma MoveRefs(sys: Sys, t: Tid)
    requires t in sys.threads && CanMove(sys.threads[t]) && PcOk(sys, sys.threads[t])
    ensures var (s, th') := MoveOf(sys.st, sys.threads[t]); var st' := Go(sys, t).st;
            if HandsOver(s)
            then Refs(st'.reg.capsules) + multiset(th'.holds) == Refs(sys.st.reg.capsules) + multiset(sys.threads[t].holds) && st'.log == sys.st.log
            else st'.reg.capsules == sys.st.reg.capsules
  {
    hide Refs;
    var th := sys.threads[t];
    match th.pc {
      case AtCapsule => if th.cid in sys.st.reg.capsules { RefsSplit(sys.st.reg.capsules, th.cid); }
      case AtChunk =>
        if th.todo == [] && th.cid !in sys.st.reg.capsules { RefsCreate(sys.st.reg.capsules, th.cid, Capsule(th.size, th.holds, th.policy)); }
      case _ => OtherSteps(sys.st, th);
    }
  }

  lemma OtherSteps(st: Store, th: Thread)
    requires CanMove(th) && !th.pc.AtCapsule? && !th.pc.AtChunk?
    ensures var s := MoveOf(st, th).0; !HandsOver(s) && (s.Some? ==> Do(st, s.value).reg.capsules == st.reg.capsules)
  {
    hide Tagged, FreshSegment, WriteAt;
    StepOfMove(st, th);
  }

  /** References move between the capsules and the calls; a count follows what is taken and given back. */
  lemma GoCounts(sys: Sys, t: Tid)
    requires Shape(sys) && t in sys.threads && CanMove(sys.threads[t]) && Fits(sys, t)
    ensures Counts(Go(sys, t))
  {
    hide Shape, MoveOf, Do, HeldBy, Refs, CountAt;
    var sys' := Go(sys, t);
    assert sys.tainted <= sys'.tainted;
    forall id | id !in sys'.tainted ensures CountAt(sys'.st.log.segs, id) == Refs(sys'.st.reg.capsules)[id] + HeldBy(sys'.threads)[id] {
      CountOk(sys, t, id);
    }
  }

  lemma CountOk(sys: Sys, t: Tid, id: SegmentId)
    requires Shape(sys) && t in sys.threads && CanMove(sys.threads[t]) && Fits(sys, t) && id !in sys.tainted
    ensures CountAt(Go(sys, t).st.log.segs, id) == Refs(Go(sys, t).st.reg.capsules)[id] + HeldBy(Go(sys, t).threads)[id]
  {
    hide Shape, MoveOf, Do, HeldBy, Refs, CountAt, Regular, CanMove, Fits, PcOk;
    var sys', th := Go(sys, t), sys.threads[t];
    var (s, th') := MoveOf(sys.st, th);
    HeldChange(sys.threads, t, th');
    CountsAt(sys, id);
    PcOf(sys, t);
    MoveRegular(sys, t, id);
    MoveHolds(sys.st, th, id);
    MoveRefs(sys, t);
    if s.Some? {
      StepCount(sys.st, s.value, id);
      if HandsOver(s) { assert Plus(s, id) == 0 && Minus(s, id) == 0; }
    }
    assert (HeldBy(sys'.threads) + multiset(th.holds))[id] == (HeldBy(sys.threads) + multiset(th'.holds))[id];
    assert HandsOver(s) ==>
      (Refs(sys'.st.reg.capsules) + multiset(th'.holds))[id] == (Refs(sys.st.reg.capsules) + multiset(th.holds))[id];
  }

  lemma CountsAt(sys: Sys, id: SegmentId)
    requires Shape(sys) && id !in sys.tainted
    ensures CountAt(sys.st.log.segs, id) == Refs(sys.st.reg.capsules)[id] + HeldBy(sys.threads)[id]
  {
    hide Refs, HeldBy;
  }

  lemma PcOf(sys: Sys, t: Tid)
    requires Shape(sys) && t in sys.threads
    ensures CanMove(sys.threads[t]) && PcOk(sys, sys.threads[t])
  {
    PcCanMove(sys, t);
  }

  // ---------------------------------------------------------------- doomed and tainted segments

  lemma GoTaint(sys: Sys, t: Tid)
    requires Shape(sys) && t in sys.threads && CanMove(sys.threads[t])
    ensures TaintOk(Go(sys, t))
  {
    hide Shape, MoveOf, Do, Bad;
    var sys' := Go(sys, t);
    MoveConfined(sys, t);
    forall id | id in sys'.tainted
      ensures id < sys'.st.reg.nextId && !Private(sys'.threads, id) && (id in sys'.st.log.segs ==> Doomed(sys'.threads, id))
    {
      TaintedWas(sys, t, id);
      StillPublic(sys, t, id);
      if id in sys'.st.log.segs {
        NoNewRecord(sys, t, id);
        StillDoomed(sys, t, id);
      }
    }
  }

  /** What is tainted was known, public, and gone or doomed. */
  lemma TaintedWas(sys: Sys, t: Tid, id: SegmentId)
    requires Shape(sys) && t in sys.threads && CanMove(sys.threads[t]) && id in Go(sys, t).tainted
    ensures id < sys.st.reg.nextId && !Private(sys.threads, id) && (id in sys.st.log.segs ==> Doomed(sys.threads, id))
  {
    hide Counts, MoveOf, Do, Private, Doomed;
    PcOf(sys, t);
  }

  lemma NotItsOwn(threads: map<Tid, Thread>, t: Tid, id: SegmentId)
    requires t in threads && !Private(threads, id)
    ensures PrivateOf(threads[t].pc) != Some(id)
  {
  }

  lemma HeldCounts(sys: Sys, t: Tid, id: SegmentId)
    requires Shape(sys) && t in sys.threads && id !in sys.tainted && id in sys.threads[t].holds
    ensures CountAt(sys.st.log.segs, id) > 0
  {
    HeldSplit(sys.threads, t);
    CountsAt(sys, id);
    hide Shape, HeldBy, Refs;
    assert id in multiset(sys.threads[t].holds);
  }

  lemma NoNewRecord(sys: Sys, t: Tid, id: SegmentId)
    requires t in sys.threads && CanMove(sys.threads[t]) && !Private(sys.threads, id) && id in Go(sys, t).st.log.segs
    ensures id in sys.st.log.segs
  {
    MoveConfined(sys, t);
    NotItsOwn(sys.threads, t, id);
    hide MoveOf, Do, Private;
  }

  /** A doomed segment that is still there is still doomed. */
  lemma StillDoomed(sys: Sys, t: Tid, id: SegmentId)
    requires t in sys.threads && CanMove(sys.threads[t]) && Doomed(sys.threads, id) && id in Go(sys, t).st.log.segs
    ensures Doomed(Go(sys, t).threads, id)
  {
    var u :| u in sys.threads && DoomedOf(sys.threads[u].pc) == Some(id);
    if u == t {
      DoomGoesOn(sys, t, id);
      assert DoomedOf(Go(sys, t).threads[t].pc) == Some(id);
    } else {
      assert Go(sys, t).threads[u] == sys.threads[u];
    }
    hide MoveOf, Do;
  }

  lemma DoomGoesOn(sys: Sys, t: Tid, id: SegmentId)
    requires t in sys.threads && DoomedOf(sys.threads[t].pc) == Some(id) && id in Go(sys, t).st.log.segs
    ensures DoomedOf(Go(sys, t).threads[t].pc) == Some(id)
  {
  }

  lemma GoDoom(sys: Sys, t: Tid)
    requires Shape(sys) && t in sys.threads && CanMove(sys.threads[t])
    ensures DoomOk(Go(sys, t))
  {
    hide Shape, MoveOf, Do, Bad, DoomedOf;
    var sys' := Go(sys, t);
    forall u | u in sys'.threads && DoomedOf(sys'.threads[u].pc).Some? && DoomedOf(sys'.threads[u].pc).value !in sys'.tainted
      ensures var id := DoomedOf(sys'.threads[u].pc).value; id in sys'.st.log.segs && sys'.st.log.segs[id].refCount == 0
    {
      if u == t { OwnDoom(sys, t); } else { OtherDoom(sys, t, u); }
    }
    forall u, v | u in sys'.threads && v in sys'.threads && u != v ensures DoomedApart(sys', sys'.threads[u].pc, sys'.threads[v].pc) {
      if u == t { DoomsApart(sys, t, v); } else if v == t { DoomsApart(sys, t, u); } else { OldDooms(sys, u, v); }
    }
  }

  lemma OldDooms(sys: Sys, u: Tid, v: Tid)
    requires Shape(sys) && u in sys.threads && v in sys.threads && u != v
    ensures DoomedApart(sys, sys.threads[u].pc, sys.threads[v].pc)
  {
    hide DoomedApart, Counts;
  }

  lemma DoomedAt(sys: Sys, u: Tid)
    requires Shape(sys) && u in sys.threads && DoomedOf(sys.threads[u].pc).Some?
    ensures var id := DoomedOf(sys.threads[u].pc).value;
            && !Private(sys.threads, id) && (id !in sys.tainted ==> id in sys.st.log.segs && sys.st.log.segs[id].refCount == 0)
  {
    hide Counts, Private;
    PcOf(sys, u);
  }

  lemma OwnDoom(sys: Sys, t: Tid)
    requires Shape(sys) && t in sys.threads && CanMove(sys.threads[t]) && DoomedOf(Go(sys, t).threads[t].pc).Some?
    requires DoomedOf(Go(sys, t).threads[t].pc).value !in Go(sys, t).tainted
    ensures var id := DoomedOf(Go(sys, t).threads[t].pc).value;
            id in Go(sys, t).st.log.segs && Go(sys, t).st.log.segs[id].refCount == 0
  {
    hide Shape, Bad, Tagged, FreshSegment, WriteAt;
    if DoomedOf(sys.threads[t].pc).Some? { DoomedAt(sys, t); }
  }

  lemma OtherDoom(sys: Sys, t: Tid, u: Tid)
    requires Shape(sys) && t in sys.threads && u in sys.threads && u != t && CanMove(sys.threads[t])
    requires DoomedOf(sys.threads[u].pc).Some? && DoomedOf(sys.threads[u].pc).value !in Go(sys, t).tainted
    ensures var id := DoomedOf(sys.threads[u].pc).value;
            id in Go(sys, t).st.log.segs && Go(sys, t).st.log.segs[id].refCount == 0
  {
    hide Shape, MoveOf, Do;
    var id := DoomedOf(sys.threads[u].pc).value;
    DoomedAt(sys, u);
    MoveConfined(sys, t);
    assert Doomed(sys.threads, id);
    NotTheirs(sys, t, u, id);
  }

  /** A doomed segment at zero is not what another call's move is about, unless it taints it. */
  lemma NotTheirs(sys: Sys, t: Tid, u: Tid, id: SegmentId)
    requires Shape(sys) && t in sys.threads && u in sys.threads && u != t && DoomedOf(sys.threads[u].pc) == Some(id)
    requires Bad(sys, t) ==> sys.threads[t].pc.id != id
    requires !Private(sys.threads, id) && id !in sys.tainted && id in sys.st.log.segs && sys.st.log.segs[id].refCount == 0
    ensures Subject(sys.st, sys.threads[t]) != Some(id)
  {
    hide HeldBy, Refs, AllPcOk, PrivateApart, TaintOk;
    var th := sys.threads[t];
    assert Doomed(sys.threads, id);
    NotItsOwn(sys.threads, t, id);
    OldDooms(sys, t, u);
    if th.pc.AtRef? && id in th.holds { HeldCounts(sys, t, id); }
  }

  lemma DoomsApart(sys: Sys, t: Tid, u: Tid)
    requires Shape(sys) && t in sys.threads && u in sys.threads && u != t && CanMove(sys.threads[t])
    ensures DoomedApart(Go(sys, t), Go(sys, t).threads[t].pc, sys.threads[u].pc)
  {
    hide Shape, Tagged, FreshSegment, WriteAt, Bad;
    OldDooms(sys, t, u);
    if DoomedOf(sys.threads[u].pc).Some? { DoomedAt(sys, u); }
  }

  // ---------------------------------------------------------------- every interleaving

  /** Every move of every call keeps it all, whatever has happened before. */
  lemma GoShape(sys: Sys, t: Tid)
    requires Shape(sys) && t in sys.threads && Fits(sys, t)
    ensures CanMove(sys.threads[t]) && Shape(Go(sys, t))
  {
    PcOf(sys, t);
    GoPcs(sys, t);
    GoPrivates(sys, t);
    GoIndexed(sys, t);
    GoCounts(sys, t);
    GoTaint(sys, t);
    GoDoom(sys, t);
    hide AllPcOk, PrivateApart, Indexed, KnownIds, Counts, TaintOk, DoomOk, Go;
  }

  datatype Action = Begin(t: Tid, thread: Thread) | Move(t: Tid)

  /** A call that has done nothing yet. */
  predicate New(th: Thread) { th.holds == [] && th.done == [] && (th.pc.AtChunk? || th.pc.AtCapsule?) }

  predicate Enabled(sys: Sys, a: Action) {
    match a
    case Begin(t, th) => t !in sys.threads && New(th)
    case Move(t) => t in sys.threads && CanMove(sys.threads[t])
  }

  function Next(sys: Sys, a: Action): Sys
    requires Enabled(sys, a)
  {
    match a
    case Begin(t, th) => sys.(threads := sys.threads[t := th])
    case Move(t) => Go(sys, t)
  }

  /** The states that a run goes through, one after the other. */
  predicate IsRun(states: seq<Sys>, run: seq<Action>) {
    && |states| == |run| + 1
    && forall i :: 0 <= i < |run| ==> Enabled(states[i], run[i]) && states[i + 1] == Next(states[i], run[i])
  }

  /** No increment of the run saturates. */
  predicate Roomy(states: seq<Sys>, run: seq<Action>) {
    |states| == |run| + 1 && forall i :: 0 <= i < |run| && run[i].Move? ==> Fits(states[i], run[i].t)
  }

  lemma BeginShape(sys: Sys, t: Tid, th: Thread)
    requires Shape(sys) && t !in sys.threads && New(th)
    ensures Shape(sys.(threads := sys.threads[t := th]))
  {
    hide HeldBy, Refs, Private, Doomed, Unindexed, PcOk;
    var sys' := sys.(threads := sys.threads[t := th]);
    HeldNew(sys.threads, t, th);
    forall id: SegmentId ensures (Private(sys'.threads, id) <==> Private(sys.threads, id)) && (Doomed(sys'.threads, id) <==> Doomed(sys.threads, id)) {
      BeginPublic(sys.threads, t, th, id);
    }
    forall u | u in sys'.threads ensures PcOk(sys', sys'.threads[u]) {
      if u == t { NewOk(sys', th); } else { SamePc(sys, sys', sys.threads[u]); }
    }
  }

  lemma NewOk(sys: Sys, th: Thread)
    requires New(th)
    ensures PcOk(sys, th)
  {
  }

  lemma SamePc(sys: Sys, sys': Sys, th: Thread)
    requires PcOk(sys, th) && sys'.st == sys.st && sys'.tainted == sys.tainted
    requires forall id: SegmentId :: Private(sys'.threads, id) <==> Private(sys.threads, id)
    ensures PcOk(sys', th)
  {
    hide Private, Unindexed;
  }

  lemma BeginPublic(threads: map<Tid, Thread>, t: Tid, th: Thread, id: SegmentId)
    requires t !in threads && New(th)
    ensures Private(threads[t := th], id) <==> Private(threads, id)
    ensures Doomed(threads[t := th], id) <==> Doomed(threads, id)
  {
    var threads' := threads[t := th];
    if Private(threads, id) {
      var u :| u in threads && PrivateOf(threads[u].pc) == Some(id);
      assert threads'[u] == threads[u];
    }
    if Doomed(threads, id) {
      var u :| u in threads && DoomedOf(threads[u].pc) == Some(id);
      assert threads'[u] == threads[u];
    }
  }

  /** Whatever calls begin and however their steps interleave. */
  lemma {:induction false} RunShape(states: seq<Sys>, run: seq<Action>, n: nat)
    requires IsRun(states, run) && Roomy(states, run) && Shape(states[0]) && n <= |run|
    ensures Shape(states[n])
  {
    hide Shape, Go, New, Fits;
    if n > 0 {
      RunShape(states, run, n - 1);
      match run[n - 1] {
        case Begin(t, th) => BeginShape(states[n - 1], t, th);
        case Move(t) => GoShape(states[n - 1], t);
      }
    }
  }

  // ---------------------------------------------------------------- when capsules stay alive

  /** No delete is between a decrement to zero and the removal of the segment. */
  predicate Settled(sys: Sys) { forall t :: t in sys.threads ==> DoomedOf(sys.threads[t].pc).None? }

  predicate Live(st: Store, cid: CapsuleId)
    requires cid in st.reg.capsules
  {
    forall id :: id in st.reg.capsules[cid].segments ==> id in st.log.segs
  }

  predicate Untainted(sys: Sys, cid: CapsuleId)
    requires cid in sys.st.reg.capsules
  {
    forall id :: id in sys.st.reg.capsules[cid].segments ==> id !in sys.tainted
  }

  /** A capsule without a tainted segment is alive at every moment; one with a tainted segment is not, as soon as no delete
      is at work. */
  lemma LiveIff(sys: Sys, cid: CapsuleId)
    requires Shape(sys) && cid in sys.st.reg.capsules
    ensures Untainted(sys, cid) ==> Live(sys.st, cid)
    ensures Settled(sys) ==> (Live(sys.st, cid) <==> Untainted(sys, cid))
  {
    forall id | id in sys.st.reg.capsules[cid].segments && id !in sys.tainted ensures id in sys.st.log.segs {
      CountsAt(sys, id);
      RefsMember(sys.st.reg.capsules, id);
    }
    hide Refs, HeldBy, AllPcOk, Counts;
    if Settled(sys) && !Untainted(sys, cid) {
      var id :| id in sys.st.reg.capsules[cid].segments && id in sys.tainted;
      assert !Doomed(sys.threads, id);
    }
  }

  /** At `i` the run increments segment `id` while a delete is about to remove it. */
  predicate BadAt(states: seq<Sys>, run: seq<Action>, i: nat, id: SegmentId)
    requires i < |run| && |states| == |run| + 1
  {
    run[i].Move? && Bad(states[i], run[i].t) && states[i].threads[run[i].t].pc.id == id
  }

  lemma {:induction false} TaintedIff(states: seq<Sys>, run: seq<Action>, n: nat, id: SegmentId)
    requires IsRun(states, run) && n <= |run|
    ensures id in states[n].tainted <==> id in states[0].tainted || exists i :: 0 <= i < n && BadAt(states, run, i, id)
  {
    hide MoveOf, Do, New;
    if n > 0 {
      TaintedIff(states, run, n - 1, id);
      var before, a := states[n - 1], run[n - 1];
      assert id in states[n].tainted <==> id in before.tainted || BadAt(states, run, n - 1, id) by {
        if a.Move? { hide Bad; }
      }
    }
  }

  /** Over every run from a state with nothing tainted: as long as no increment falls between a delete's decrement to zero
      and its removal of the same segment, every segment that a capsule names is there. Where no delete is at work, a
      capsule has lost a segment exactly if it names one that was so incremented. */
  lemma CapsulesLiveIff(states: seq<Sys>, run: seq<Action>, cid: CapsuleId)
    requires IsRun(states, run) && Roomy(states, run) && Shape(states[0]) && states[0].tainted == {}
    requires cid in states[|run|].st.reg.capsules
    ensures var sys := states[|run|]; var ids := sys.st.reg.capsules[cid].segments;
            && ((forall i, id :: 0 <= i < |run| && id in ids ==> !BadAt(states, run, i, id)) ==> Live(sys.st, cid))
            && (Settled(sys) ==>
                  (Live(sys.st, cid) <==> forall i, id :: 0 <= i < |run| && id in ids ==> !BadAt(states, run, i, id)))
  {
    var sys := states[|run|];
    RunShape(states, run, |run|);
    LiveIff(sys, cid);
    hide Shape, Roomy, IsRun, BadAt, Live;
    forall id | id in sys.st.reg.capsules[cid].segments
      ensures id in sys.tainted <==> exists i :: 0 <= i < |run| && BadAt(states, run, i, id)
    {
      TaintedIff(states, run, |run|, id);
    }
  }

  /** A delete never meets a missing or uncounted segment while nothing is tainted. */
  lemma DeleteFindsCount(sys: Sys, t: Tid)
    requires Shape(sys) && sys.tainted == {} && t in sys.threads && sys.threads[t].pc.AtRef? && sys.threads[t].holds != []
    ensures var id := sys.threads[t].holds[0]; id in sys.st.log.segs && sys.st.log.segs[id].refCount > 0
  {
    hide Shape;
    HeldCounts(sys, t, sys.threads[t].holds[0]);
  }
}
