/** The whole store as a value, its persistence steps, and the invariant every step keeps.

    A step is one call that the pipeline makes on the log or the registry; it ends with that call's save,
    so a crash falls between two steps. The invariant counts references exactly: a segment's count is its
    occurrences over all capsules plus its occurrences in `f`, the references that an unfinished (or
    failed) operation holds. */
module Store {
  import opened Types
  import opened Codec
  import opened NvramSim
  import opened Registry

  datatype Store = Store(log: Log, reg: Catalog)

  datatype Step =
    | AllocStep
    | AppendStep(id: SegmentId, data: Bytes)
    | UpdateStep(id: SegmentId, segment: Segment)
    | IncStep(id: SegmentId)
    | DecStep(id: SegmentId)
    | RemoveStep(id: SegmentId)
    | MoveNextStep(next: nat)
    | WriteStep(off: nat, data: Bytes)
    | PublishStep(txn: Txn)
    | RegisterStep(hash: ContentHash, id: SegmentId)
    | DeregisterStep(hash: ContentHash, id: SegmentId)
    | CreateStep(cid: CapsuleId, capsule: Capsule)
    | DropStep(cid: CapsuleId)

  function Do(st: Store, s: Step): Store {
    match s
    case AllocStep => st.(reg := Alloc(st.reg))
    case AppendStep(id, data) => st.(log := Append(st.log, id, data))
    case UpdateStep(id, segment) => st.(log := Update(st.log, id, segment))
    case IncStep(id) => st.(log := Increment(st.log, id))
    case DecStep(id) => st.(log := Decrement(st.log, id))
    case RemoveStep(id) => st.(log := Remove(st.log, id))
    case MoveNextStep(next) => st.(log := st.log.(next := next))
    case WriteStep(off, data) => st.(log := st.log.(file := WriteAt(st.log.file, off, data)))
    case PublishStep(txn) => st.(log := st.log.(segs := st.log.segs + PendingMap(txn.pending), next := txn.cur))
    case RegisterStep(h, id) => st.(reg := Register(st.reg, h, id))
    case DeregisterStep(h, id) => st.(reg := Deregister(st.reg, h, id))
    case CreateStep(cid, c) => st.(reg := Create(st.reg, cid, c))
    case DropStep(cid) => st.(reg := Drop(st.reg, cid))
  }

  function Run(st: Store, steps: seq<Step>): Store {
    if steps == [] then st else Do(Run(st, steps[..|steps| - 1]), steps[|steps| - 1])
  }

  lemma RunSnoc(st: Store, steps: seq<Step>, s: Step)
    ensures Run(st, steps + [s]) == Do(Run(st, steps), s)
  {
    assert (steps + [s])[..|steps|] == steps;
  }

  lemma {:induction false} RunConcat(st: Store, a: seq<Step>, b: seq<Step>)
    ensures Run(st, a + b) == Run(Run(st, a), b)
  {
    if b == [] {
      assert a + b == a;
    } else {
      RunConcat(st, a, b[..|b| - 1]);
      assert (a + b)[..|a + b| - 1] == a + b[..|b| - 1];
    }
  }

  // ---------------------------------------------------------------- references held by an operation

  function Copies(id: SegmentId, n: nat): multiset<SegmentId> { multiset{}[id := n] }

  function PendingRefs(pending: seq<Pending>): multiset<SegmentId> {
    if pending == [] then multiset{}
    else
      var s := pending[|pending| - 1].segment;
      PendingRefs(pending[..|pending| - 1]) + Copies(s.id, s.refCount)
  }

  /** How a step moves references between the operation (`f`) and the capsules. */
  ghost function Held(st: Store, f: multiset<SegmentId>, s: Step): multiset<SegmentId> {
    match s
    case AppendStep(id, _) => f + multiset{id}
    case IncStep(id) => f + multiset{id}
    case DecStep(id) => f - multiset{id}
    case RemoveStep(id) => f[id := 0]
    case PublishStep(txn) => f + PendingRefs(txn.pending)
    case CreateStep(_, c) => f - multiset(c.segments)
    case DropStep(cid) => if cid in st.reg.capsules then f + multiset(st.reg.capsules[cid].segments) else f
    case _ => f
  }

  ghost function HeldAfter(st: Store, f: multiset<SegmentId>, steps: seq<Step>): multiset<SegmentId> {
    if steps == [] then f
    else
      var before := steps[..|steps| - 1];
      Held(Run(st, before), HeldAfter(st, f, before), steps[|steps| - 1])
  }

  lemma {:induction false} HeldConcat(st: Store, f: multiset<SegmentId>, a: seq<Step>, b: seq<Step>)
    ensures HeldAfter(st, f, a + b) == HeldAfter(Run(st, a), HeldAfter(st, f, a), b)
  {
    if b == [] {
      assert a + b == a;
    } else {
      var c := b[..|b| - 1];
      HeldConcat(st, f, a, c);
      RunConcat(st, a, c);
      assert (a + b)[..|a + b| - 1] == a + c;
    }
  }

  // ---------------------------------------------------------------- the invariant

  /** The decrypted content of a segment. */
  function Plain(env: Env, l: Log, id: SegmentId): Result<Bytes>
    requires id in l.segs
  {
    match RawOf(l, id)
    case None => Err(ReadPastEnd)
    case Some(raw) => Decrypt(env, l.segs[id].encryption, raw)
  }

  /** Capsules name live segments whose ids the metadata file knows to be taken. */
  predicate Referenced(st: Store) {
    forall c :: c in st.reg.capsules ==>
      forall id :: id in st.reg.capsules[c].segments ==> id in st.log.segs && id < st.reg.savedId
  }

  /** Every content entry names a live segment with that hash. */
  predicate Indexed(st: Store) {
    forall h :: h in st.reg.content ==>
      st.reg.content[h] in st.log.segs && st.log.segs[st.reg.content[h]].contentHash == Some(h)
  }

  /** A hash recorded on a segment is the hash of its content. */
  predicate Hashed(env: Env, l: Log) {
    forall id :: id in l.segs ==> HashedAt(env, l, id)
  }

  predicate HashedAt(env: Env, l: Log, id: SegmentId)
    requires id in l.segs
  {
    l.segs[id].contentHash.Some? ==>
      Plain(env, l, id).Ok? && env.hash(Plain(env, l, id).value) == l.segs[id].contentHash.value
  }

  /** What a crash leaves behind: everything but the counts. */
  predicate Consistent(env: Env, st: Store) {
    LogOk(st.log) && Referenced(st) && Indexed(st) && Hashed(env, st.log)
  }

  ghost predicate Counted(st: Store, f: multiset<SegmentId>) {
    && (forall id :: id in st.log.segs ==> st.log.segs[id].refCount == Refs(st.reg.capsules)[id] + f[id])
    && (forall id :: id in f ==> id in st.log.segs)
  }

  /** The `deduplicated` flag of every segment says what its count says. */
  predicate Flagged(l: Log) {
    forall id :: id in l.segs ==> (l.segs[id].deduplicated <==> l.segs[id].refCount > 1)
  }

  /** Every count fits its 32-bit field. */
  predicate Bounded(l: Log) { forall id :: id in l.segs ==> l.segs[id].refCount <= U32_MAX }

  predicate Allocated(st: Store) {
    st.reg.savedId <= st.reg.nextId && forall id :: id in st.log.segs ==> id < st.reg.nextId
  }

  ghost predicate Inv(env: Env, st: Store, f: multiset<SegmentId>) {
    Consistent(env, st) && Counted(st, f) && Flagged(st.log) && Bounded(st.log) && Allocated(st)
  }

  /** No segment is dead weight. */
  predicate NoZero(l: Log) { forall id :: id in l.segs ==> l.segs[id].refCount > 0 }

  /** The state between operations when none of them failed half way. */
  ghost predicate Clean(env: Env, st: Store) { Inv(env, st, multiset{}) && NoZero(st.log) }

  // ---------------------------------------------------------------- when a step is taken

  predicate Unindexed(st: Store, id: SegmentId) {
    forall h :: h in st.reg.content ==> st.reg.content[h] != id
  }

  /** The data of a transaction is in the file. */
  predicate Flushed(file: Bytes, t: Txn) {
    forall i :: 0 <= i < |t.pending| ==>
      var s := t.pending[i].segment;
      && ReadAt(file, s.offset, s.len) == Some(t.pending[i].data)
      && (t.pending[i].data != [] ==> s.offset + s.len <= |file|)
  }

  /** A staged segment carries the hash of its content. */
  predicate PendingHashed(env: Env, p: Pending) {
    p.segment.contentHash.Some? ==>
      && Decrypt(env, p.segment.encryption, p.data).Ok?
      && env.hash(Decrypt(env, p.segment.encryption, p.data).value) == p.segment.contentHash.value
  }

  predicate Publishable(env: Env, st: Store, t: Txn) {
    && Staged(st.log, t) && Flushed(st.log.file, t)
    && (forall i :: 0 <= i < |t.pending| ==>
          && t.pending[i].segment.id < st.reg.nextId
          && (t.pending[i].segment.deduplicated <==> t.pending[i].segment.refCount > 1)
          && t.pending[i].segment.refCount <= U32_MAX
          && PendingHashed(env, t.pending[i]))
  }

  /** Tagging a segment that no capsule and no content entry names yet. */
  predicate Taggable(env: Env, st: Store, id: SegmentId, s: Segment) {
    && id in st.log.segs
    && s.(compressed := false, algo := Unlabelled, contentHash := None, encryption := None)
       == st.log.segs[id].(compressed := false, algo := Unlabelled, contentHash := None, encryption := None)
    && Unindexed(st, id)
    && HashedAt(env, Update(st.log, id, s), id)
  }

  ghost predicate Allowed(env: Env, st: Store, f: multiset<SegmentId>, s: Step) {
    match s
    case AllocStep => true
    case AppendStep(id, data) => id !in st.log.segs && id < st.reg.nextId && |data| <= U32_MAX
    case UpdateStep(id, segment) => Taggable(env, st, id, segment) && Refs(st.reg.capsules)[id] == 0
    case IncStep(id) => id in st.log.segs && st.log.segs[id].refCount < U32_MAX
    case DecStep(id) => id in f
    case RemoveStep(id) => id in st.log.segs && Refs(st.reg.capsules)[id] == 0 && Unindexed(st, id)
    case MoveNextStep(next) => Clear(st.log, next)
    case WriteStep(off, _) => Clear(st.log, off)
    case PublishStep(txn) => Publishable(env, st, txn)
    case RegisterStep(h, id) => id in st.log.segs && st.log.segs[id].contentHash == Some(h)
    case DeregisterStep(_, _) => true
    case CreateStep(cid, c) => cid !in st.reg.capsules && multiset(c.segments) <= f
    case DropStep(cid) => cid in st.reg.capsules
  }

  /** Steps after which segment `id` may read differently. */
  predicate Touches(s: Step, id: SegmentId) {
    (s.UpdateStep? || s.RemoveStep?) && s.id == id
  }

  // ---------------------------------------------------------------- every step keeps the invariant

  lemma KeptHashed(env: Env, l: Log, l': Log, id: SegmentId)
    requires id in l.segs && Kept(l, l', id) && HashedAt(env, l, id)
    requires l'.segs[id].contentHash == l.segs[id].contentHash
    ensures HashedAt(env, l', id)
  {
  }

  lemma StepKeepsPlaces(env: Env, st: Store, f: multiset<SegmentId>, s: Step)
    requires LogOk(st.log) && Allowed(env, st, f, s)
    ensures LogOk(Do(st, s).log)
    ensures forall id :: id in st.log.segs && !Touches(s, id) ==> Kept(st.log, Do(st, s).log, id)
  {
    if s.AppendStep? || s.WriteStep? || s.PublishStep? {
      FileStepKeepsPlaces(env, st, f, s);
    } else if s.UpdateStep? || s.IncStep? || s.DecStep? || s.RemoveStep? || s.MoveNextStep? {
      MapStepKeepsPlaces(env, st, f, s);
    } else {
      assert Do(st, s).log == st.log;
    }
  }

  lemma FileStepKeepsPlaces(env: Env, st: Store, f: multiset<SegmentId>, s: Step)
    requires LogOk(st.log) && Allowed(env, st, f, s) && (s.AppendStep? || s.WriteStep? || s.PublishStep?)
    ensures LogOk(Do(st, s).log)
    ensures forall id :: id in st.log.segs ==> Kept(st.log, Do(st, s).log, id)
  {
    LogOkClear(st.log);
    match s {
      case AppendStep(id, data) => AppendOk(st.log, id, data);
      case WriteStep(off, data) => WriteKeeps(st.log, off, data, st.log.next);
      case PublishStep(txn) => PublishKeepsPlaces(st.log, txn);
    }
  }

  lemma MapStepKeepsPlaces(env: Env, st: Store, f: multiset<SegmentId>, s: Step)
    requires LogOk(st.log) && Allowed(env, st, f, s)
    requires s.UpdateStep? || s.IncStep? || s.DecStep? || s.RemoveStep? || s.MoveNextStep?
    ensures LogOk(Do(st, s).log)
    ensures forall id :: id in st.log.segs && !Touches(s, id) ==> Kept(st.log, Do(st, s).log, id)
  {
    hide HashedAt, Refs, Unindexed;
    LogOkClear(st.log);
    SameFileKeepsPlaces(st.log, Do(st, s).log);
  }

  lemma LogOkClear(l: Log)
    requires LogOk(l)
    ensures Clear(l, l.next) && forall id :: id in l.segs ==> l.segs[id].id == id
  {
  }

  lemma SameFileKeepsPlaces(l: Log, l': Log)
    requires LogOk(l) && l'.file == l.file && Clear(l, l'.next)
    requires forall id :: id in l'.segs ==>
      id in l.segs && l'.segs[id].id == id && l'.segs[id].offset == l.segs[id].offset && l'.segs[id].len == l.segs[id].len
    ensures LogOk(l')
    ensures forall id :: id in l.segs && id in l'.segs && l'.segs[id].encryption == l.segs[id].encryption ==> Kept(l, l', id)
  {
  }

  lemma StepKeepsHashes(env: Env, st: Store, f: multiset<SegmentId>, s: Step)
    requires LogOk(st.log) && Hashed(env, st.log) && Allowed(env, st, f, s)
    ensures Hashed(env, Do(st, s).log)
  {
    var l, l' := st.log, Do(st, s).log;
    StepKeepsPlaces(env, st, f, s);
    forall j | j in l'.segs ensures HashedAt(env, l', j) {
      if j in l.segs && !Touches(s, j) {
        assert l'.segs[j].contentHash == l.segs[j].contentHash by {
          if s.PublishStep? { PublishKeepsPlaces(l, s.txn); }
        }
        KeptHashed(env, l, l', j);
      } else if s.PublishStep? {
        PublishedHashed(env, st, s.txn, j);
      }
    }
  }

  lemma PublishKeepsPlaces(l: Log, t: Txn)
    requires LogOk(l) && Staged(l, t) && Flushed(l.file, t)
    ensures var l' := l.(segs := l.segs + PendingMap(t.pending), next := t.cur);
            LogOk(l') && forall id :: id in l.segs ==> Kept(l, l', id) && l'.segs[id] == l.segs[id]
  {
    var l' := l.(segs := l.segs + PendingMap(t.pending), next := t.cur);
    if t.pending == [] {
      assert l'.segs == l.segs;
    } else {
      CommittedSegments(l, t);
      assert l'.segs == Committed(l, t).segs;
      CommittedApart(l, t, l');
    }
  }

  lemma PublishedHashed(env: Env, st: Store, t: Txn, id: SegmentId)
    requires Publishable(env, st, t) && id in Do(st, PublishStep(t)).log.segs && id !in st.log.segs
    ensures HashedAt(env, Do(st, PublishStep(t)).log, id)
  {
    PendingMapContents(t.pending);
    var i := Find(t.pending, id).value;
    assert PendingHashed(env, t.pending[i]);
    assert Do(st, PublishStep(t)).log.segs[id] == t.pending[i].segment;
  }

  lemma {:induction false} PendingRefsAt(pending: seq<Pending>, id: SegmentId)
    requires forall i, j :: 0 <= i < j < |pending| ==> pending[i].segment.id != pending[j].segment.id
    ensures PendingRefs(pending)[id] ==
      match Find(pending, id) case Some(i) => pending[i].segment.refCount case None => 0
  {
    if pending != [] {
      PendingRefsAt(pending[..|pending| - 1], id);
    }
  }

  lemma StepKeepsCounts(env: Env, st: Store, f: multiset<SegmentId>, s: Step)
    requires Inv(env, st, f) && Allowed(env, st, f, s)
    ensures Counted(Do(st, s), Held(st, f, s))
  {
    match s {
      case AppendStep(_, _) => LogStepKeepsCounts(env, st, f, s);
      case UpdateStep(_, _) => LogStepKeepsCounts(env, st, f, s);
      case IncStep(_) => LogStepKeepsCounts(env, st, f, s);
      case DecStep(_) => LogStepKeepsCounts(env, st, f, s);
      case RemoveStep(_) => LogStepKeepsCounts(env, st, f, s);
      case CreateStep(cid, c) =>
        CreateKeepsCounts(st, f, cid, c);
      case DropStep(cid) =>
        DropKeepsCounts(st, f, cid);
      case PublishStep(t) =>
        PublishKeepsCounts(env, st, f, t);
      case _ =>
    }
  }

  lemma LogStepKeepsCounts(env: Env, st: Store, f: multiset<SegmentId>, s: Step)
    requires Counted(st, f) && Referenced(st) && Allowed(env, st, f, s)
    requires s.AppendStep? || s.UpdateStep? || s.IncStep? || s.DecStep? || s.RemoveStep?
    ensures Counted(Do(st, s), Held(st, f, s))
  {
    RefsMember(st.reg.capsules, s.id);
    hide Unindexed, HashedAt, Refs, WriteAt, Kept;
    CountsChangeAt(st, Do(st, s), f, Held(st, f, s), s.id);
  }

  lemma CountsChangeAt(st: Store, st': Store, f: multiset<SegmentId>, f': multiset<SegmentId>, id: SegmentId)
    requires Counted(st, f) && st'.reg.capsules == st.reg.capsules
    requires forall j :: j != id ==> f'[j] == f[j]
    requires forall j :: j in st'.log.segs && j != id ==> j in st.log.segs && st'.log.segs[j].refCount == st.log.segs[j].refCount
    requires forall j :: j in st.log.segs && j != id ==> j in st'.log.segs
    requires id in st'.log.segs ==> st'.log.segs[id].refCount == Refs(st.reg.capsules)[id] + f'[id]
    requires id in f' ==> id in st'.log.segs
    ensures Counted(st', f')
  {
  }

  lemma CreateKeepsCounts(st: Store, f: multiset<SegmentId>, cid: CapsuleId, c: Capsule)
    requires Counted(st, f) && cid !in st.reg.capsules && multiset(c.segments) <= f
    ensures Counted(Do(st, CreateStep(cid, c)), f - multiset(c.segments))
  {
    RefsCreate(st.reg.capsules, cid, c);
  }

  lemma DropKeepsCounts(st: Store, f: multiset<SegmentId>, cid: CapsuleId)
    requires Counted(st, f) && Referenced(st) && cid in st.reg.capsules
    ensures Counted(Do(st, DropStep(cid)), f + multiset(st.reg.capsules[cid].segments))
  {
    RefsSplit(st.reg.capsules, cid);
    forall id | id in multiset(st.reg.capsules[cid].segments) ensures id in st.log.segs {
      assert id in st.reg.capsules[cid].segments;
    }
  }

  lemma PublishKeepsCounts(env: Env, st: Store, f: multiset<SegmentId>, t: Txn)
    requires Inv(env, st, f) && Publishable(env, st, t)
    ensures Counted(Do(st, PublishStep(t)), Held(st, f, PublishStep(t)))
  {
    hide Inv, Refs, PendingMap, PendingRefs, Staged, Flushed, PendingHashed;
    var st', f' := Do(st, PublishStep(t)), Held(st, f, PublishStep(t));
    forall id ensures id in f' ==> id in st'.log.segs { PublishedAt(env, st, f, t, id); }
    forall id | id in st'.log.segs ensures st'.log.segs[id].refCount == Refs(st.reg.capsules)[id] + f'[id] {
      PublishedAt(env, st, f, t, id);
    }
  }

  lemma PublishedAt(env: Env, st: Store, f: multiset<SegmentId>, t: Txn, id: SegmentId)
    requires Inv(env, st, f) && Staged(st.log, t)
    ensures var segs, f' := st.log.segs + PendingMap(t.pending), f + PendingRefs(t.pending);
            (id in f' ==> id in segs) && (id in segs ==> segs[id].refCount == Refs(st.reg.capsules)[id] + f'[id])
  {
    PendingMapContents(t.pending);
    PendingRefsAt(t.pending, id);
    RefsMember(st.reg.capsules, id);
    hide PendingMap, PendingRefs, Refs, LogOk, Hashed;
    if Find(t.pending, id).Some? { assert id !in st.log.segs; }
  }

  lemma StepKeepsReferenced(env: Env, st: Store, f: multiset<SegmentId>, s: Step)
    requires Referenced(st) && Allocated(st) && Counted(st, f) && Allowed(env, st, f, s)
    ensures Referenced(Do(st, s))
  {
    hide HashedAt, Staged, Flushed, PendingHashed, Kept;
    match s {
      case RemoveStep(id) => RefsMember(st.reg.capsules, id);
      case CreateStep(cid, c) =>
        forall id | id in c.segments ensures id in st.log.segs && id < st.reg.nextId {
          assert id in multiset(c.segments) && id in f;
        }
      case _ =>
    }
  }

  lemma StepKeepsAllocated(env: Env, st: Store, f: multiset<SegmentId>, s: Step)
    requires Allocated(st) && Allowed(env, st, f, s)
    ensures Allocated(Do(st, s))
  {
    hide HashedAt, Flushed, PendingHashed, Refs;
    if s.PublishStep? { PendingMapFinds(s.txn.pending); }
  }

  lemma StepKeepsIndexed(env: Env, st: Store, f: multiset<SegmentId>, s: Step)
    requires Indexed(st) && Allowed(env, st, f, s)
    ensures Indexed(Do(st, s))
  {
    hide HashedAt, Flushed, PendingHashed, Refs;
    if s.PublishStep? {
      var pending := s.txn.pending;
      PendingMapFinds(pending);
    }
  }

  lemma StepKeepsFlags(env: Env, st: Store, f: multiset<SegmentId>, s: Step)
    requires Flagged(st.log) && Bounded(st.log) && Allowed(env, st, f, s)
    ensures Flagged(Do(st, s).log) && Bounded(Do(st, s).log)
  {
    hide HashedAt, Flushed, PendingHashed, Refs, Unindexed, Clear, WriteAt;
    if s.PublishStep? {
      PendingMapFinds(s.txn.pending);
      hide PendingMap, Find;
    }
  }

  lemma StepKeepsInv(env: Env, st: Store, f: multiset<SegmentId>, s: Step)
    requires Inv(env, st, f) && Allowed(env, st, f, s)
    ensures Inv(env, Do(st, s), Held(st, f, s))
    ensures forall id :: id in st.log.segs && !Touches(s, id) ==> Kept(st.log, Do(st, s).log, id)
  {
    StepKeepsPlaces(env, st, f, s);
    StepKeepsHashes(env, st, f, s);
    StepKeepsCounts(env, st, f, s);
    StepKeepsReferenced(env, st, f, s);
    StepKeepsAllocated(env, st, f, s);
    StepKeepsIndexed(env, st, f, s);
    StepKeepsFlags(env, st, f, s);
  }

  // ---------------------------------------------------------------- reading capsules

  function ReadSegments(env: Env, l: Log, c: Compression, ids: seq<SegmentId>): Result<Bytes> {
    if ids == [] then Ok([])
    else
      var id := ids[|ids| - 1];
      match ReadSegments(env, l, c, ids[..|ids| - 1])
      case Err(e) => Err(e)
      case Ok(head) =>
        if id !in l.segs then Err(SegmentNotFound)
        else match Plain(env, l, id)
             case Err(e) => Err(e)
             case Ok(data) => Ok(head + Unpack(env, c, data))
  }

  function CapsuleBytes(env: Env, st: Store, cid: CapsuleId): Result<Bytes> {
    if cid !in st.reg.capsules then Err(CapsuleNotFound)
    else ReadSegments(env, st.log, st.reg.capsules[cid].policy.compression, st.reg.capsules[cid].segments)
  }

  lemma {:induction false} KeptReads(env: Env, l: Log, l': Log, c: Compression, ids: seq<SegmentId>)
    requires forall id :: id in ids ==> id in l.segs && Kept(l, l', id)
    ensures ReadSegments(env, l', c, ids) == ReadSegments(env, l, c, ids)
  {
    if ids != [] {
      KeptReads(env, l, l', c, ids[..|ids| - 1]);
    }
  }

  /** What a capsule is to its reader: the bytes that it reads, and the size that is recorded for it. */
  datatype Entry = Entry(bytes: Bytes, size: nat)

  /** `view` is the abstract store. */
  predicate Shows(env: Env, st: Store, view: map<CapsuleId, Entry>) {
    && view.Keys == st.reg.capsules.Keys
    && forall c :: c in view ==> CapsuleBytes(env, st, c) == Ok(view[c].bytes) && st.reg.capsules[c].size == view[c].size
  }

  lemma CapsuleUntouched(env: Env, st: Store, f: multiset<SegmentId>, s: Step, cid: CapsuleId)
    requires Referenced(st) && Allowed(env, st, f, s) && cid in st.reg.capsules
    ensures forall id :: id in st.reg.capsules[cid].segments ==> id in st.log.segs && !Touches(s, id)
    ensures cid in Do(st, s).reg.capsules ==> Do(st, s).reg.capsules[cid] == st.reg.capsules[cid]
  {
    hide HashedAt, Unindexed, Publishable;
    if s.UpdateStep? || s.RemoveStep? { RefsMember(st.reg.capsules, s.id); }
  }

  /** A step changes no capsule that exists before and after it. */
  lemma StepKeepsReads(env: Env, st: Store, f: multiset<SegmentId>, s: Step, cid: CapsuleId)
    requires Inv(env, st, f) && Allowed(env, st, f, s)
    requires cid in st.reg.capsules && cid in Do(st, s).reg.capsules
    ensures CapsuleBytes(env, Do(st, s), cid) == CapsuleBytes(env, st, cid)
  {
    StepKeepsPlaces(env, st, f, s);
    var ids := st.reg.capsules[cid].segments;
    CapsuleUntouched(env, st, f, s, cid);
    hide Kept, Inv, Allowed;
    KeptReads(env, st.log, Do(st, s).log, st.reg.capsules[cid].policy.compression, ids);
  }

  // ---------------------------------------------------------------- programs: sequences of allowed steps

  ghost predicate AllAllowed(env: Env, st: Store, f: multiset<SegmentId>, steps: seq<Step>) {
    steps == [] || (
      var before := steps[..|steps| - 1];
      && AllAllowed(env, st, f, before)
      && Allowed(env, Run(st, before), HeldAfter(st, f, before), steps[|steps| - 1]))
  }

  lemma {:induction false} AllowedConcat(env: Env, st: Store, f: multiset<SegmentId>, a: seq<Step>, b: seq<Step>)
    requires AllAllowed(env, st, f, a) && AllAllowed(env, Run(st, a), HeldAfter(st, f, a), b)
    ensures AllAllowed(env, st, f, a + b)
  {
    if b == [] {
      assert a + b == a;
    } else {
      var c := b[..|b| - 1];
      AllowedConcat(env, st, f, a, c);
      RunConcat(st, a, c);
      HeldConcat(st, f, a, c);
      assert (a + b)[..|a + b| - 1] == a + c;
    }
  }

  lemma {:induction false} AllowedPrefix(env: Env, st: Store, f: multiset<SegmentId>, steps: seq<Step>, k: nat)
    requires AllAllowed(env, st, f, steps) && k <= |steps|
    ensures AllAllowed(env, st, f, steps[..k])
  {
    if k == |steps| {
      assert steps[..k] == steps;
    } else {
      var before := steps[..|steps| - 1];
      AllowedPrefix(env, st, f, before, k);
      assert before[..k] == steps[..k];
    }
  }

  /** Every program keeps the invariant, and what it held is accounted for. */
  lemma {:induction false} ProgramKeepsInv(env: Env, st: Store, f: multiset<SegmentId>, steps: seq<Step>)
    requires Inv(env, st, f) && AllAllowed(env, st, f, steps)
    ensures Inv(env, Run(st, steps), HeldAfter(st, f, steps))
  {
    if steps != [] {
      var before := steps[..|steps| - 1];
      ProgramKeepsInv(env, st, f, before);
      StepKeepsInv(env, Run(st, before), HeldAfter(st, f, before), steps[|steps| - 1]);
    }
  }
}
