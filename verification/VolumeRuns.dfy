/** The volumes' main results: over every interleaving, with restarts anywhere. */
module VolumeRuns {
  import opened Types
  import opened Volumes
  import opened VolumeSafety

  lemma EndKeeps(w: World, t: Tid, ok: bool)
    requires Inv(w) && t in w.threads && !w.threads[t].pc.Called?
    ensures Inv(StepEnd(w, t, ok))
  {
    hide SizeOk, Replay, Writes, Faithful, Owned, Never, Once;
    var pc := w.threads[t].pc;
    assert ThreadOk(w, t);
    match pc
    case Applied(prior) =>
      if ok {
        assert w.log[..|w.log|] == w.log;
        SaveKeeps(w, t, if prior.Some? then Saved(prior.value) else Ended(Done));
      } else if prior.Some? {
        AbandonKeeps(w, t, prior.value, PersistFailed);
      } else {
        MoveKeeps(w, t, Ended(Failed(PersistFailed)));
      }
    case Saved(c) => DeleteCapsuleKeeps(w, t, c, Ended(Done));
    case Losing(c, why) => DeleteCapsuleKeeps(w, t, c, Ended(Failed(why)));
    case _ =>
  }

  lemma FailKeeps(w: World, t: Tid, why: Failure)
    requires Inv(w) && t in w.threads && Holds(w.threads[t].pc) == None && Never(w.log, t)
    ensures Inv(Fail(w, t, why))
  {
    hide SizeOk, Replay, Writes, Faithful, Owned, Never;
    MoveKeeps(w, t, Ended(Failed(why)));
  }

  /** Under the table's lock a snapshot is what the volume reads. */
  lemma SnapshotTaken(w: World, n: Name)
    requires Inv(w) && n in w.volumes
    ensures SnapshotOk(w, n, w.volumes[n], |w.log|)
  {
    hide SizeOk, Replay, Writes, Owned, Saving, ThreadOk;
    assert w.log[..|w.log|] == w.log;
    assert VolumeOk(w.volumes[n], n, w.store, w.published, w.log);
  }

  /** If the table still names the capsule of a snapshot, nothing has changed: neither the rest of the
      volume's record, its version included, nor its contents. */
  lemma SnapshotCurrent(w: World, n: Name, v: Volume, at: nat)
    requires Inv(w) && SnapshotOk(w, n, v, at) && n in w.volumes && w.volumes[n].cid == v.cid
    ensures w.volumes[n] == v && v.cid in w.store && n in Replay(w.log)
    ensures Replay(w.log)[n] == Replay(w.log[..at])[n] && |Replay(w.log)[n]| == v.size
  {
    hide SizeOk, Replay, Writes, Owned, Saving, ThreadOk;
    assert VolumeOk(w.volumes[n], n, w.store, w.published, w.log);
  }

  lemma CreateKeeps(w: World, t: Tid, cid: CapsuleId, ok: bool)
    requires Inv(w) && t in w.threads && w.threads[t].call.CreateCall? && (Draws(w.threads[t].pc) ==> cid !in w.used)
    ensures Inv(StepCreate(w, t, cid, ok))
  {
    hide SizeOk, Replay, Writes, Faithful, Owned, Never, Once, NameOk;
    var c, pc := w.threads[t].call, w.threads[t].pc;
    assert ThreadOk(w, t);
    match pc
    case Called =>
      if !NameOk(c.name) { FailKeeps(w, t, BadName); }
      else if !SizeOk(c.size, c.blockSize) { FailKeeps(w, t, BadSize); }
      else if c.name in w.volumes { FailKeeps(w, t, VolumeExists); }
      else { MoveKeeps(w, t, Checked); }
    case Checked =>
      if ok { WriteCapsuleKeeps(w, t, cid, Zeros(c.size), Built(cid)); } else { FailKeeps(w, t, StoreFailed); }
    case Built(mine) =>
      if c.name in w.volumes {
        MoveKeeps(w, t, Losing(mine, VolumeExists));
      } else {
        SetKeeps(w, t, c.name, Volume(c.size, c.blockSize, mine, 1), Made(c.name, c.size));
      }
    case _ => EndKeeps(w, t, ok);
  }

  lemma DeleteKeeps(w: World, t: Tid, ok: bool)
    requires Inv(w) && t in w.threads && w.threads[t].call.DeleteCall?
    ensures Inv(StepDelete(w, t, ok))
  {
    hide SizeOk, Replay, Writes, Faithful, Owned, Never, Once;
    var c, pc := w.threads[t].call, w.threads[t].pc;
    assert ThreadOk(w, t);
    if pc.Called? {
      if c.name !in w.volumes { FailKeeps(w, t, VolumeNotFound); } else { RemoveKeeps(w, t, c.name); }
    } else {
      EndKeeps(w, t, ok);
    }
  }

  lemma ReadKeeps(w: World, t: Tid)
    requires Inv(w) && t in w.threads && w.threads[t].call.ReadCall?
    ensures Inv(StepRead(w, t))
  {
    hide SizeOk, Replay, Writes, Faithful, Owned, Never, Once;
    var c, pc := w.threads[t].call, w.threads[t].pc;
    assert ThreadOk(w, t);
    match pc
    case Called =>
      if c.name !in w.volumes { FailKeeps(w, t, VolumeNotFound); }
      else if c.offset + c.len > w.volumes[c.name].size { FailKeeps(w, t, BeyondEnd); }
      else {
        SnapshotTaken(w, c.name);
        MoveKeeps(w, t, Looked(w.volumes[c.name], |w.log|));
      }
    case Looked(v, _) =>
      if v.cid !in w.store { FailKeeps(w, t, CapsuleGone); }
      else if c.offset + c.len > |w.store[v.cid]| { FailKeeps(w, t, BeyondEnd); }
      else { MoveKeeps(w, t, Ended(Got(w.store[v.cid][c.offset..c.offset + c.len]))); }
    case _ =>
  }

  lemma WriteKeeps(w: World, t: Tid, cid: CapsuleId, ok: bool)
    requires Inv(w) && t in w.threads && w.threads[t].call.WriteCall? && (Draws(w.threads[t].pc) ==> cid !in w.used)
    ensures Inv(StepWrite(w, t, cid, ok))
  {
    hide Inv, SizeOk, Replay, Writes, Never, Once, Patch, StepEnd;
    var c, pc := w.threads[t].call, w.threads[t].pc;
    InvThread(w, t);
    match pc
    case Called =>
      if c.data == [] { MoveKeeps(w, t, Ended(Done)); }
      else if c.name !in w.volumes { FailKeeps(w, t, VolumeNotFound); }
      else if c.offset + |c.data| > w.volumes[c.name].size { FailKeeps(w, t, BeyondEnd); }
      else {
        SnapshotTaken(w, c.name);
        MoveKeeps(w, t, Looked(w.volumes[c.name], |w.log|));
      }
    case Looked(v, at) =>
      if v.cid !in w.store { FailKeeps(w, t, CapsuleGone); }
      else { MoveKeeps(w, t, Copied(v, at, Patch(w.store[v.cid], c.offset, c.data))); }
    case Copied(v, at, buffer) =>
      PublishedUsed(w);
      if ok { WriteCapsuleKeeps(w, t, cid, buffer, Rewritten(v, at, cid)); } else { FailKeeps(w, t, StoreFailed); }
    case Rewritten(_, _, _) => SwapKeeps(w, t);
    case _ => EndKeeps(w, t, ok);
  }

  lemma PublishedUsed(w: World)
    requires Inv(w)
    ensures w.published <= w.used
  {
  }

  lemma SwapKeeps(w: World, t: Tid)
    requires Inv(w) && t in w.threads && w.threads[t].call.WriteCall? && w.threads[t].pc.Rewritten?
    ensures forall cid, ok :: Inv(StepWrite(w, t, cid, ok))
  {
    hide SizeOk, Replay, Writes, Faithful, Owned, Never, Once, Patch;
    var c, pc := w.threads[t].call, w.threads[t].pc;
    assert ThreadOk(w, t);
    if c.name !in w.volumes {
      AbandonKeeps(w, t, pc.cid, VolumeNotFound);
    } else {
      var now := w.volumes[c.name];
      if now.version != pc.v.version || now.cid != pc.v.cid {
        MoveKeeps(w, t, Losing(pc.cid, Conflict));
      } else {
        SnapshotCurrent(w, c.name, pc.v, pc.at);
        VersionIs(w, c.name);
        PatchExact(Replay(w.log)[c.name], c.offset, c.data);
        var v' := now.(cid := pc.cid, version := if now.version < U64_MAX then now.version + 1 else now.version);
        SetKeeps(w, t, c.name, v', Patched(c.name, c.offset, c.data));
      }
    }
  }

  /** The saturating version number counts the writes since the volume was made. */
  lemma VersionIs(w: World, n: Name)
    requires Inv(w) && n in w.volumes
    ensures w.volumes[n].version == Min(Writes(w.log, n) + 1, U64_MAX)
  {
    hide SizeOk, Replay, Writes, Owned, Saving, ThreadOk;
    assert VolumeOk(w.volumes[n], n, w.store, w.published, w.log);
  }

  /** A patch that fits changes exactly its range. */
  lemma PatchExact(buffer: Bytes, offset: nat, data: Bytes)
    requires offset + |data| <= |buffer|
    ensures var p := Patch(buffer, offset, data);
            && |p| == |buffer|
            && forall i :: 0 <= i < |p| ==> p[i] == if offset <= i < offset + |data| then data[i - offset] else buffer[i]
  {
  }

  // ---------------------------------------------------------------- restarts

  lemma OwnerOnDiskIs(disk: map<Name, Volume>, c: CapsuleId)
    requires forall n, m :: n in disk && m in disk && n != m ==> disk[n].cid != disk[m].cid
    ensures forall n :: n in disk && disk[n].cid == c ==> OwnerOnDisk(disk, c) == ByVolume(n)
    ensures OwnerOnDisk(disk, c).ByVolume? ==> OwnerOnDisk(disk, c).name in disk && disk[OwnerOnDisk(disk, c).name].cid == c
    ensures !OwnerOnDisk(disk, c).ByThread?
  {
  }

  lemma RestartKeeps(w: World)
    requires Inv(w)
    ensures Inv(Reopened(w))
  {
    hide SizeOk, Replay, Writes, Never, Once;
    var w' := Reopened(w);
    assert w'.log[..w'.savedAt] == w'.log;
    ReopenedOwned(w);
    forall t | t in w'.threads ensures ThreadOk(w', t) {
      assert ThreadOk(w, t);
      NeverPrefix(w.log, w.savedAt, t);
    }
  }

  lemma NeverPrefix(log: seq<(Tid, Event)>, k: nat, t: Tid)
    requires k <= |log|
    ensures Never(log, t) ==> Never(log[..k], t)
  {
  }

  lemma ReopenedOwned(w: World)
    requires Inv(w)
    ensures Owned(Reopened(w))
  {
    hide SizeOk, Replay, Writes, ThreadOk, OwnerOnDisk, HoldsOk, Known;
    forall c ensures DiskOwner(w.disk, c) { OwnerOnDiskIs(w.disk, c); }
    var w' := Reopened(w);
    forall n | n in w'.volumes
      ensures w'.volumes[n].cid in w'.owner && w'.owner[w'.volumes[n].cid] == ByVolume(n)
    {
      assert DiskOwner(w.disk, w.disk[n].cid) && VolumeOk(w.disk[n], n, w.store, w.published, w.log[..w.savedAt]);
    }
    forall c | c in w'.owner
      ensures !w'.owner[c].ByThread?
      ensures w'.owner[c].ByVolume? ==> w'.owner[c].name in w'.volumes && w'.volumes[w'.owner[c].name].cid == c
    {
      assert DiskOwner(w.disk, c);
    }
    forall t | t in w'.threads ensures HoldsOk(w', t) { EndedHolds(w', t); }
  }

  /** The saved table says who owns a capsule. */
  ghost predicate DiskOwner(disk: map<Name, Volume>, c: CapsuleId) {
    && (forall n :: n in disk && disk[n].cid == c ==> OwnerOnDisk(disk, c) == ByVolume(n))
    && (OwnerOnDisk(disk, c).ByVolume? ==> OwnerOnDisk(disk, c).name in disk && disk[OwnerOnDisk(disk, c).name].cid == c)
    && !OwnerOnDisk(disk, c).ByThread?
  }

  lemma EndedHolds(w: World, t: Tid)
    requires t in w.threads && w.threads[t].pc.Ended?
    ensures HoldsOk(w, t)
  {
  }

  // ---------------------------------------------------------------- main results

  /** Every step of every call, and a restart, keeps the invariant. */
  lemma NextKeeps(w: World, a: Action)
    requires Inv(w) && Enabled(w, a)
    ensures Inv(Next(w, a))
  {
    hide Inv, StepCreate, StepDelete, StepRead, StepWrite, Reopened;
    if a.Start? {
      StartKeeps(w, a.t, a.call);
    } else if a.Go? {
      var call := w.threads[a.t].call;
      if call.CreateCall? { CreateKeeps(w, a.t, a.cid, a.ok); }
      else if call.DeleteCall? { DeleteKeeps(w, a.t, a.ok); }
      else if call.ReadCall? { ReadKeeps(w, a.t); }
      else { WriteKeeps(w, a.t, a.cid, a.ok); }
    } else {
      RestartKeeps(w);
    }
  }

  lemma StartKeeps(w: World, t: Tid, call: Call)
    requires Inv(w) && t !in w.threads
    ensures Inv(w.(threads := w.threads[t := Thread(call, Called)]))
  {
    hide SizeOk, Replay, Writes, Faithful;
    var w' := w.(threads := w.threads[t := Thread(call, Called)]);
    forall u | u in w'.threads ensures HoldsOk(w', u) && ThreadOk(w', u) {
      assert u != t ==> HoldsOk(w, u) && ThreadOk(w, u);
    }
  }

  // ---------------------------------------------------------------- runs

  /** A view without volumes over a store that may hold other capsules. */
  function Opening(store: map<CapsuleId, Bytes>): World {
    World(map[], store, map[], map[], store.Keys, {}, [], 0, map c | c in store :: Nobody)
  }

  ghost predicate Possible(w: World, run: seq<Action>)
    decreases |run|, 0
  {
    run == [] || (Possible(w, run[..|run| - 1]) && Enabled(After(w, run[..|run| - 1]), run[|run| - 1]))
  }

  ghost function After(w: World, run: seq<Action>): World
    requires Possible(w, run)
    decreases |run|, 1
  {
    if run == [] then w else Next(After(w, run[..|run| - 1]), run[|run| - 1])
  }

  lemma {:induction false} RunKeeps(w: World, run: seq<Action>)
    requires Inv(w) && Possible(w, run)
    ensures Inv(After(w, run))
  {
    hide Inv, Next;
    if run != [] {
      RunKeeps(w, run[..|run| - 1]);
      NextKeeps(After(w, run[..|run| - 1]), run[|run| - 1]);
    }
  }

  lemma OpeningOk(store: map<CapsuleId, Bytes>)
    ensures Inv(Opening(store))
  {
  }

  /** Every reachable world satisfies the invariant. */
  lemma Reachable(store: map<CapsuleId, Bytes>, run: seq<Action>)
    requires Possible(Opening(store), run)
    ensures Inv(After(Opening(store), run))
  {
    OpeningOk(store);
    RunKeeps(Opening(store), run);
  }

  // ---------------------------------------------------------------- no lost update

  /** What the volumes read now. */
  function Contents(w: World): map<Name, Bytes> {
    map n | n in w.volumes && w.volumes[n].cid in w.store :: w.store[w.volumes[n].cid]
  }

  lemma ContentsReplay(w: World)
    requires Inv(w)
    ensures Contents(w) == Replay(w.log) && Contents(w).Keys == w.volumes.Keys
  {
    hide SizeOk, Replay, Writes, Owned, Saving, ThreadOk;
    forall n | n in w.volumes ensures n in Contents(w) && Contents(w)[n] == Replay(w.log)[n] {
      assert VolumeOk(w.volumes[n], n, w.store, w.published, w.log);
    }
  }

  /** The change that an action of a call commits, if it commits one. */
  ghost function Committed(w: World, a: Action): Option<Event>
    requires Enabled(w, a)
  {
    if a.Go? && |Next(w, a).log| > |w.log| then Some(Next(w, a).log[|w.log|].1) else None
  }

  /** The change makes sense where it is committed. */
  predicate Applicable(m: map<Name, Bytes>, e: Event) {
    match e
    case Made(n, size) => n !in m && size > 0
    case Patched(n, offset, data) => n in m && data != [] && offset + |data| <= |m[n]|
    case Gone(n) => n in m
  }

  /** No lost update: an action of a call either leaves every volume's contents alone, or commits that call's
      own change to what the volumes read at that moment. */
  lemma NoLostUpdate(w: World, a: Action)
    requires Inv(w) && Enabled(w, a) && !a.Restart?
    ensures var w', e := Next(w, a), Committed(w, a);
            && (e.None? ==> Contents(w') == Contents(w))
            && (e.Some? ==>
                  && Effect(w.threads[a.t].call) == e && Applicable(Contents(w), e.value)
                  && Contents(w') == Apply(Contents(w), e.value))
  {
    NextKeeps(w, a);
    ContentsReplay(w);
    ContentsReplay(Next(w, a));
    if a.Go? {
      LogStep(w, a);
      if Committed(w, a).Some? {
        ReplayMore(w.log, (a.t, Committed(w, a).value));
      }
    }
  }

  /** What an action of a call does to the table's record of volume `n`. */
  ghost predicate RecordChange(w: World, a: Action, w': World, n: Name, e: Option<Event>)
    requires a.Go? && a.t in w.threads
  {
    if e.None? || e.value.name != n then
      (n in w'.volumes <==> n in w.volumes) && (n in w.volumes ==> w'.volumes[n] == w.volumes[n])
    else match e.value
      case Made(_, size) =>
        && w.threads[a.t].call.CreateCall? && n in w'.volumes
        && w'.volumes[n].size == size && w'.volumes[n].blockSize == w.threads[a.t].call.blockSize
      case Patched(_, _, _) =>
        && n in w.volumes && n in w'.volumes && w'.volumes[n].cid != w.volumes[n].cid
        && w'.volumes[n].size == w.volumes[n].size && w'.volumes[n].blockSize == w.volumes[n].blockSize
      case Gone(_) => n !in w'.volumes
  }

  /** A committed change affects the record of its own volume alone, and a write neither its size nor its block size. */
  lemma RecordsKept(w: World, a: Action, n: Name)
    requires Inv(w) && Enabled(w, a) && a.Go?
    ensures RecordChange(w, a, Next(w, a), n, Committed(w, a))
  {
    hide Inv, StepCreate, StepDelete, StepRead, StepWrite, RecordChange;
    var call := w.threads[a.t].call;
    if call.CreateCall? { CreateRecords(w, a, n); }
    else if call.DeleteCall? { DeleteRecords(w, a, n); }
    else if call.ReadCall? { ReadRecords(w, a, n); }
    else { WriteRecords(w, a, n); }
  }

  lemma CreateRecords(w: World, a: Action, n: Name)
    requires Inv(w) && Enabled(w, a) && a.Go? && w.threads[a.t].call.CreateCall?
    ensures RecordChange(w, a, Next(w, a), n, Committed(w, a))
  {
    hide Inv, NameOk, SizeOk;
  }

  lemma DeleteRecords(w: World, a: Action, n: Name)
    requires Inv(w) && Enabled(w, a) && a.Go? && w.threads[a.t].call.DeleteCall?
    ensures RecordChange(w, a, Next(w, a), n, Committed(w, a))
  {
    hide Inv;
  }

  lemma ReadRecords(w: World, a: Action, n: Name)
    requires Inv(w) && Enabled(w, a) && a.Go? && w.threads[a.t].call.ReadCall?
    ensures RecordChange(w, a, Next(w, a), n, Committed(w, a))
  {
    hide Inv;
  }

  lemma WriteRecords(w: World, a: Action, n: Name)
    requires Inv(w) && Enabled(w, a) && a.Go? && w.threads[a.t].call.WriteCall?
    ensures RecordChange(w, a, Next(w, a), n, Committed(w, a))
  {
    hide Inv, Patch;
    if w.threads[a.t].pc.Rewritten? { RewrittenApart(w, a.t); }
  }

  lemma RewrittenApart(w: World, t: Tid)
    requires Inv(w) && t in w.threads && w.threads[t].pc.Rewritten?
    ensures forall n :: n in w.volumes ==> w.volumes[n].cid != w.threads[t].pc.cid
  {
    hide Faithful, Saving, ThreadOk, Replay, Writes;
    assert HoldsOk(w, t);
  }

  /** At most one change is committed at a time, by the call that takes the step. */
  lemma LogStep(w: World, a: Action)
    requires Inv(w) && Enabled(w, a) && a.Go?
    ensures var w' := Next(w, a);
            w'.log == w.log ||
              exists e :: && w'.log == w.log + [(a.t, e)] && Effect(w.threads[a.t].call) == Some(e)
                          && Applicable(Replay(w.log), e)
  {
    hide Inv, Replay, Patch, Reopened, StepRead;
    var th := w.threads[a.t];
    if Next(w, a).log != w.log {
      Commits(w, a);
      hide Next;
    }
  }

  /** A step that commits commits its call's own change, and the change fits. */
  lemma Commits(w: World, a: Action)
    requires Inv(w) && Enabled(w, a) && a.Go? && Next(w, a).log != w.log
    ensures var e := Effect(w.threads[a.t].call); e.Some? && Next(w, a).log == w.log + [(a.t, e.value)] && Applicable(Replay(w.log), e.value)
  {
    hide Inv, Replay, StepCreate, StepDelete, StepRead, StepWrite, Reopened;
    var t := a.t;
    match w.threads[t].call {
      case CreateCall(_, _, _) => CreateLog(w, t, a.cid, a.ok); NewVolume(w, t);
      case DeleteCall(_) => DeleteLog(w, t, a.ok); OldVolume(w, w.threads[t].call.name);
      case ReadCall(_, _, _) => ReadLog(w, t);
      case WriteCall(_, _, _) => WriteLog(w, t, a.cid, a.ok); FittingPatch(w, t);
    }
  }

  lemma EndLog(w: World, t: Tid, ok: bool)
    requires t in w.threads
    ensures StepEnd(w, t, ok).log == w.log
  {
  }

  lemma ReadLog(w: World, t: Tid)
    requires t in w.threads && w.threads[t].call.ReadCall?
    ensures StepRead(w, t).log == w.log
  {
  }

  /** A create commits when it inserts its volume. */
  lemma CreateLog(w: World, t: Tid, cid: CapsuleId, ok: bool)
    requires t in w.threads && w.threads[t].call.CreateCall?
    ensures var c, w' := w.threads[t].call, StepCreate(w, t, cid, ok);
            w'.log == w.log || (w.threads[t].pc.Built? && c.name !in w.volumes && w'.log == w.log + [(t, Made(c.name, c.size))])
  {
    EndLog(w, t, ok);
    hide StepEnd, NameOk, SizeOk;
  }

  /** A delete commits when it takes its volume away. */
  lemma DeleteLog(w: World, t: Tid, ok: bool)
    requires t in w.threads && w.threads[t].call.DeleteCall?
    ensures var c, w' := w.threads[t].call, StepDelete(w, t, ok);
            w'.log == w.log || (c.name in w.volumes && w'.log == w.log + [(t, Gone(c.name))])
  {
    EndLog(w, t, ok);
    hide StepEnd;
  }

  /** A write commits when it swaps its capsule in. */
  lemma WriteLog(w: World, t: Tid, cid: CapsuleId, ok: bool)
    requires t in w.threads && w.threads[t].call.WriteCall?
    ensures var c, pc, w' := w.threads[t].call, w.threads[t].pc, StepWrite(w, t, cid, ok);
            w'.log == w.log || (pc.Rewritten? && c.name in w.volumes && w.volumes[c.name].cid == pc.v.cid
                                && w'.log == w.log + [(t, Patched(c.name, c.offset, c.data))])
  {
    EndLog(w, t, ok);
    hide StepEnd, Patch;
  }

  lemma OldVolume(w: World, n: Name)
    requires Inv(w)
    ensures n in w.volumes <==> n in Replay(w.log)
  {
    hide Replay, Owned, Saving, Known, ThreadOk;
  }

  lemma NewVolume(w: World, t: Tid)
    requires Inv(w) && t in w.threads && w.threads[t].call.CreateCall?
    ensures w.threads[t].pc.Built? && w.threads[t].call.name !in w.volumes ==>
      Applicable(Replay(w.log), Made(w.threads[t].call.name, w.threads[t].call.size))
  {
    hide Replay, Owned, Saving, Known, Never, Once, SnapshotOk;
    OldVolume(w, w.threads[t].call.name);
    assert ThreadOk(w, t);
  }

  lemma FittingPatch(w: World, t: Tid)
    requires Inv(w) && t in w.threads && w.threads[t].call.WriteCall?
    ensures var c, pc := w.threads[t].call, w.threads[t].pc;
            pc.Rewritten? && c.name in w.volumes && w.volumes[c.name].cid == pc.v.cid ==>
              c.data != [] && Applicable(Replay(w.log), Patched(c.name, c.offset, c.data))
  {
    hide Replay, Owned, Saving, Known, Never, Once, Faithful;
    var c, pc := w.threads[t].call, w.threads[t].pc;
    assert ThreadOk(w, t);
    if pc.Rewritten? && c.name in w.volumes && w.volumes[c.name].cid == pc.v.cid { SnapshotCurrent(w, c.name, pc.v, pc.at); }
  }

  // ---------------------------------------------------------------- the compare-and-swap

  /** The swap succeeds if and only if nobody has changed the volume since the snapshot. The capsule id alone
      would decide it: the version, which saturates, never tells more. */
  lemma SwapIff(w: World, t: Tid, cid: CapsuleId, ok: bool)
    requires Inv(w) && t in w.threads && w.threads[t].pc.Rewritten?
    ensures w.threads[t].call.WriteCall?
    ensures var n, v, w' := w.threads[t].call.name, w.threads[t].pc.v, StepWrite(w, t, cid, ok);
            && (w'.threads[t].pc.Applied? <==> !ChangedSince(w.log, n, w.threads[t].pc.at))
            && (w'.threads[t].pc.Applied? <==> n in w.volumes && w.volumes[n].cid == v.cid)
  {
    hide SizeOk, Replay, Writes, Owned, Saving, Faithful, Never, ChangedSince;
    assert ThreadOk(w, t);
  }

  /** A call that finds the capsule of its snapshot gone has also been overtaken. */
  lemma GoneMeansChanged(w: World, t: Tid)
    requires Inv(w) && t in w.threads && w.threads[t].pc.Looked? && w.threads[t].pc.v.cid !in w.store
    ensures Never(w.log, t) && ChangedSince(w.log, w.threads[t].call.name, w.threads[t].pc.at)
  {
    hide SizeOk, Replay, Writes, Owned, Saving, Never, ChangedSince;
    assert ThreadOk(w, t);
    var n := w.threads[t].call.name;
    if n in w.volumes {
      assert VolumeOk(w.volumes[n], n, w.store, w.published, w.log);
    }
  }

  lemma ChangedStays(log: seq<(Tid, Event)>, log': seq<(Tid, Event)>, n: Name, at: nat)
    requires log <= log' && ChangedSince(log, n, at)
    ensures ChangedSince(log', n, at)
  {
    var i :| at <= i < |log| && log[i].1.name == n;
    assert log'[i].1.name == n;
  }

  /** A volume that nobody has changed is there if it was there, and reads as it did. */
  lemma {:induction false} Untouched(log: seq<(Tid, Event)>, n: Name, at: nat)
    requires at <= |log| && !ChangedSince(log, n, at)
    ensures n in Replay(log) <==> n in Replay(log[..at])
    ensures n in Replay(log) ==> Replay(log)[n] == Replay(log[..at])[n]
  {
    if |log| == at {
      assert log[..at] == log;
    } else {
      var init := log[..|log| - 1];
      assert init[..at] == log[..at];
      if ChangedSince(init, n, at) { ChangedStays(init, log, n, at); }
      Untouched(init, n, at);
    }
  }

  /** Without a restart the log only grows. */
  lemma {:induction false} LogGrows(w: World, run: seq<Action>)
    requires Inv(w) && Possible(w, run) && forall i :: 0 <= i < |run| ==> !run[i].Restart?
    ensures w.log <= After(w, run).log
  {
    hide Inv, Next;
    if run != [] {
      var n := |run| - 1;
      LogGrows(w, run[..n]);
      RunKeeps(w, run[..n]);
      ActionGrows(After(w, run[..n]), run[n]);
    }
  }

  lemma ActionGrows(w: World, a: Action)
    requires Inv(w) && Enabled(w, a) && !a.Restart?
    ensures w.log <= Next(w, a).log
  {
    hide Inv;
    if a.Go? { LogStep(w, a); }
  }

  // ---------------------------------------------------------------- reads

  /** A call that has not ended was not there at the last restart, so the log has only grown. */
  lemma {:induction false} LiveLogGrows(w: World, run: seq<Action>, t: Tid)
    requires Inv(w) && Possible(w, run) && t in w.threads
    ensures t in After(w, run).threads
    ensures w.threads[t].pc.Ended? ==> After(w, run).threads[t] == w.threads[t]
    ensures var w' := After(w, run);
            !w'.threads[t].pc.Ended? ==> |w.log| <= |w'.log| && w'.log[..|w.log|] == w.log
  {
    if run == [] {
      assert w.log[..|w.log|] == w.log;
    } else {
      hide Inv, Next;
      var n := |run| - 1;
      LiveLogGrows(w, run[..n], t);
      RunKeeps(w, run[..n]);
      ActionKeepsEnded(After(w, run[..n]), run[n], t);
    }
  }

  lemma ActionKeepsEnded(w: World, a: Action, t: Tid)
    requires Inv(w) && Enabled(w, a) && t in w.threads
    ensures t in Next(w, a).threads
    ensures w.threads[t].pc.Ended? ==> Next(w, a).threads[t] == w.threads[t]
    ensures var w' := Next(w, a); !w'.threads[t].pc.Ended? ==> |w.log| <= |w'.log| && w'.log[..|w.log|] == w.log
  {
    hide Inv;
    assert w.log[..|w.log|] == w.log;
    if a.Go? {
      LogStep(w, a);
      if t != a.t { OthersStay(w, a, t); } else { GoerStays(w, a); }
    }
  }

  /** Call `u` stands where it stood. */
  predicate Stays(w: World, w': World, u: Tid) { u in w.threads && u in w'.threads && w'.threads[u] == w.threads[u] }

  lemma OthersStay(w: World, a: Action, u: Tid)
    requires Enabled(w, a) && a.Go? && u in w.threads && u != a.t
    ensures Stays(w, Next(w, a), u)
  {
    hide StepCreate, StepDelete, StepRead, StepWrite, Stays;
    var call := w.threads[a.t].call;
    if call.CreateCall? { CreateStays(w, a.t, a.cid, a.ok, u); }
    else if call.DeleteCall? { DeleteStays(w, a.t, a.ok, u); }
    else if call.ReadCall? { ReadStays(w, a.t, u); }
    else { WriteStays(w, a.t, a.cid, a.ok, u); }
  }

  lemma EndStays(w: World, t: Tid, ok: bool, u: Tid)
    requires t in w.threads && u in w.threads && u != t
    ensures Stays(w, StepEnd(w, t, ok), u)
  {
  }

  lemma CreateStays(w: World, t: Tid, cid: CapsuleId, ok: bool, u: Tid)
    requires t in w.threads && w.threads[t].call.CreateCall? && u in w.threads && u != t
    ensures Stays(w, StepCreate(w, t, cid, ok), u)
  {
    hide NameOk, SizeOk, StepEnd;
    EndStays(w, t, ok, u);
  }

  lemma DeleteStays(w: World, t: Tid, ok: bool, u: Tid)
    requires t in w.threads && w.threads[t].call.DeleteCall? && u in w.threads && u != t
    ensures Stays(w, StepDelete(w, t, ok), u)
  {
    hide StepEnd;
    EndStays(w, t, ok, u);
  }

  lemma ReadStays(w: World, t: Tid, u: Tid)
    requires t in w.threads && w.threads[t].call.ReadCall? && u in w.threads && u != t
    ensures Stays(w, StepRead(w, t), u)
  {
  }

  lemma WriteStays(w: World, t: Tid, cid: CapsuleId, ok: bool, u: Tid)
    requires t in w.threads && w.threads[t].call.WriteCall? && u in w.threads && u != t
    ensures Stays(w, StepWrite(w, t, cid, ok), u)
  {
    hide Patch, StepEnd;
    EndStays(w, t, ok, u);
  }

  lemma GoerStays(w: World, a: Action)
    requires Enabled(w, a) && a.Go?
    ensures a.t in Next(w, a).threads
  {
    hide StepCreate, StepDelete, StepRead, StepWrite;
  }

  /** Call `t` takes its snapshot in `w`; the others do `others`; then `t` is still where it was. */
  ghost predicate SnapshotThen(w: World, t: Tid, take: Action, others: seq<Action>) {
    && Enabled(w, take) && take.Go? && take.t == t
    && var w1 := Next(w, take);
       && Possible(w1, others)
       && t in w1.threads && w1.threads[t].pc.Looked?
       && t in After(w1, others).threads && After(w1, others).threads[t] == w1.threads[t]
  }

  ghost function Later(w: World, t: Tid, take: Action, others: seq<Action>): World
    requires SnapshotThen(w, t, take, others)
  {
    After(Next(w, take), others)
  }

  /** A successful read returns what the volume read at the moment of its snapshot, whatever the others did
      between the snapshot and the end of the read. */
  lemma ReadIsAtomic(w: World, t: Tid, take: Action, others: seq<Action>)
    requires Inv(w) && t in w.threads && w.threads[t].call.ReadCall? && w.threads[t].pc.Called?
    requires SnapshotThen(w, t, take, others)
    ensures Later(w, t, take, others).threads[t].call == w.threads[t].call
    ensures var c, w' := w.threads[t].call, StepRead(Later(w, t, take, others), t);
            && t in w'.threads && c.name in Contents(w) && c.offset + c.len <= |Contents(w)[c.name]|
            && w'.threads[t].pc.Ended?
            && (w'.threads[t].pc.reply == Got(Contents(w)[c.name][c.offset..c.offset + c.len])
                || w'.threads[t].pc.reply == Failed(CapsuleGone))
  {
    hide Inv, Possible, After, Contents, SnapshotOk, Replay, Next;
    var w1 := Next(w, take);
    SnapshotAt(w, take);
    NextKeeps(w, take);
    LiveLogGrows(w1, others, t);
    RunKeeps(w1, others);
    var w2 := After(w1, others);
    assert w2.log[..|w.log|] == w.log;
    ContentsReplay(w);
    LookedOk(w2, t);
    SnapshotReads(w2, w.threads[t].call.name, w2.threads[t].pc.v, |w.log|);
  }

  lemma SnapshotAt(w: World, take: Action)
    requires Enabled(w, take) && take.Go? && w.threads[take.t].call.ReadCall? && w.threads[take.t].pc.Called?
    ensures var w1, c := Next(w, take), w.threads[take.t].call;
            && take.t in w1.threads && w1.threads[take.t].call == c && w1.log == w.log
            && (w1.threads[take.t].pc.Looked? ==> w1.threads[take.t].pc.at == |w.log|)
  {
  }

  /** The copy that a writer overwrites has the size its bounds check was made against. */
  lemma LookedFits(w: World, t: Tid)
    requires Inv(w) && t in w.threads && w.threads[t].pc.Looked? && w.threads[t].call.WriteCall?
    ensures var c, pc := w.threads[t].call, w.threads[t].pc;
            pc.v.cid in w.store ==> |w.store[pc.v.cid]| == pc.v.size && c.offset + |c.data| <= |w.store[pc.v.cid]|
  {
    assert ThreadOk(w, t);
  }

  lemma LookedOk(w: World, t: Tid)
    requires Inv(w) && t in w.threads && w.threads[t].pc.Looked? && w.threads[t].call.ReadCall?
    ensures var c, pc := w.threads[t].call, w.threads[t].pc; SnapshotOk(w, c.name, pc.v, pc.at) && c.offset + c.len <= pc.v.size
  {
    hide SnapshotOk;
    assert ThreadOk(w, t);
  }

  lemma SnapshotReads(w: World, n: Name, v: Volume, at: nat)
    requires SnapshotOk(w, n, v, at)
    ensures at <= |w.log| && n in Replay(w.log[..at]) && |Replay(w.log[..at])[n]| == v.size
    ensures v.cid in w.store ==> w.store[v.cid] == Replay(w.log[..at])[n]
  {
    hide Replay;
  }

  // ---------------------------------------------------------------- outcomes, restarts, capsules

  /** A call that reported success has made its change exactly once, and the saved table has it; a call that
      reported an error has made none, unless saving failed or the process stopped. Both stay so for ever,
      across restarts. */
  lemma OutcomeIsDurable(w: World, t: Tid, run: seq<Action>)
    requires Inv(w) && Possible(w, run) && t in w.threads && w.threads[t].pc.Ended?
    ensures var w', c := After(w, run), w.threads[t].call;
            match w.threads[t].pc.reply
            case Done => Effect(c).Some? ==> Once(w'.log, t, Effect(c).value) && SavedOnce(w', t, Effect(c).value)
            case Got(_) => Never(w'.log, t)
            case Failed(why) => why == PersistFailed || why == Killed || Never(w'.log, t)
  {
    hide Inv, Possible, After, Never, Once;
    LiveLogGrows(w, run, t);
    RunKeeps(w, run);
    InvThread(After(w, run), t);
  }

  lemma InvThread(w: World, t: Tid)
    requires Inv(w) && t in w.threads
    ensures ThreadOk(w, t)
  {
  }

  /** After a restart every volume reads as the saved changes, and none of the later ones, say. */
  lemma RestartReads(w: World)
    requires Inv(w)
    ensures w.savedAt <= |w.log| && Contents(Reopened(w)) == Replay(w.log[..w.savedAt])
    ensures Reopened(w).volumes == w.disk && Contents(Reopened(w)).Keys == w.disk.Keys
  {
    hide Inv, Replay;
    RestartKeeps(w);
    ContentsReplay(Reopened(w));
    SavedWithin(w);
  }

  lemma SavedWithin(w: World)
    requires Inv(w)
    ensures w.savedAt <= |w.log|
  {
  }

  /** A capsule has at most one owner: a volume or an unfinished call. When no call is in flight, every
      capsule is a volume's or has been abandoned. */
  lemma OneOwner(w: World)
    requires Inv(w)
    ensures forall n, m :: n in w.volumes && m in w.volumes && n != m ==> w.volumes[n].cid != w.volumes[m].cid
    ensures forall n, t, c :: n in w.volumes && t in w.threads && Holds(w.threads[t].pc) == Some(c) ==> w.volumes[n].cid != c
    ensures forall t, u, c :: t in w.threads && u in w.threads && t != u && Holds(w.threads[t].pc) == Some(c) ==>
      Holds(w.threads[u].pc) != Some(c)
    ensures (forall t :: t in w.threads ==> w.threads[t].pc.Ended?) ==>
      forall c :: c in w.store ==> c in w.owner && (w.owner[c].Nobody? || exists n :: n in w.volumes && w.volumes[n].cid == c)
  {
    hide SizeOk, Replay, Writes, Saving, ThreadOk, Holds;
    forall t, c | t in w.threads && Holds(w.threads[t].pc) == Some(c) ensures c in w.owner && w.owner[c] == ByThread(t) {
      assert HoldsOk(w, t);
    }
    if forall t :: t in w.threads ==> w.threads[t].pc.Ended? {
      forall c | c in w.store ensures w.owner[c].Nobody? || exists n :: n in w.volumes && w.volumes[n].cid == c {
        if w.owner[c].ByThread? { EndedHoldsNothing(w.threads[w.owner[c].t].pc); }
      }
    }
  }

  lemma EndedHoldsNothing(pc: Pc)
    requires pc.Ended?
    ensures Holds(pc) == None
  {
  }

  predicate Abandoned(w: World, c: CapsuleId) { c in w.owner && w.owner[c] == Nobody }

  /** A writer finds its volume deleted, or a writer or deleter cannot save the table. */
  predicate Leaks(w: World, t: Tid, ok: bool, c: CapsuleId)
    requires t in w.threads
  {
    var call, pc := w.threads[t].call, w.threads[t].pc;
    Holds(pc) == Some(c) && ((pc.Rewritten? && call.name !in w.volumes) || (pc.Applied? && !ok))
  }

  lemma AbandonedApart(w: World, t: Tid, c: CapsuleId)
    requires Inv(w) && t in w.threads && Abandoned(w, c)
    ensures c in w.used && Holds(w.threads[t].pc) != Some(c) && forall n :: n in w.volumes ==> w.volumes[n].cid != c
  {
    hide SizeOk, Replay, Writes, Saving, Faithful, ThreadOk, Holds, Private, Known;
    assert HoldsOk(w, t);
  }

  lemma CallOf(w: World, t: Tid)
    requires Inv(w) && t in w.threads
    ensures w.threads[t].pc.Rewritten? ==> w.threads[t].call.WriteCall?
    ensures w.threads[t].pc.Applied? ==> !w.threads[t].call.ReadCall?
    ensures Holds(w.threads[t].pc).Some? ==> Holds(w.threads[t].pc).value in w.owner
  {
    hide SizeOk, Replay, Writes, Saving, Faithful, Never, Once, SavedOnce, SnapshotOk, Known, Private;
    assert ThreadOk(w, t) && HoldsOk(w, t);
  }

  /** Exactly when a call leaks its capsule. */
  lemma LeakIff(w: World, a: Action, c: CapsuleId)
    requires Inv(w) && Enabled(w, a) && !a.Restart?
    ensures Abandoned(Next(w, a), c) <==> Abandoned(w, c) || (a.Go? && Leaks(w, a.t, a.ok, c))
  {
    hide Inv, StepCreate, StepDelete, StepRead, StepWrite, Abandoned, Leaks;
    if a.Go? {
      var call := w.threads[a.t].call;
      if call.CreateCall? { CreateLeaks(w, a.t, a.cid, a.ok, c); }
      else if call.DeleteCall? { DeleteLeaks(w, a.t, a.ok, c); }
      else if call.ReadCall? { ReadLeaks(w, a.t, c); }
      else { WriteLeaks(w, a.t, a.cid, a.ok, c); }
    } else {
      assert Abandoned(Next(w, a), c) <==> Abandoned(w, c) by { StartLeaks(w, a, c); }
    }
  }

  lemma StartLeaks(w: World, a: Action, c: CapsuleId)
    requires Enabled(w, a) && a.Start?
    ensures Abandoned(Next(w, a), c) <==> Abandoned(w, c)
  {
  }

  lemma EndLeaks(w: World, t: Tid, ok: bool, c: CapsuleId)
    requires Inv(w) && t in w.threads && !w.threads[t].pc.Rewritten?
    ensures Abandoned(StepEnd(w, t, ok), c) <==> Abandoned(w, c) || Leaks(w, t, ok, c)
  {
    hide Inv;
    CallOf(w, t);
    if Abandoned(w, c) { AbandonedApart(w, t, c); }
  }

  lemma CreateLeaks(w: World, t: Tid, cid: CapsuleId, ok: bool, c: CapsuleId)
    requires Inv(w) && t in w.threads && w.threads[t].call.CreateCall? && (Draws(w.threads[t].pc) ==> cid !in w.used)
    ensures Abandoned(StepCreate(w, t, cid, ok), c) <==> Abandoned(w, c) || Leaks(w, t, ok, c)
  {
    hide Inv, NameOk, SizeOk, StepEnd;
    CallOf(w, t);
    if Abandoned(w, c) { AbandonedApart(w, t, c); }
    EndLeaks(w, t, ok, c);
  }

  lemma DeleteLeaks(w: World, t: Tid, ok: bool, c: CapsuleId)
    requires Inv(w) && t in w.threads && w.threads[t].call.DeleteCall?
    ensures Abandoned(StepDelete(w, t, ok), c) <==> Abandoned(w, c) || Leaks(w, t, ok, c)
  {
    hide Inv, StepEnd;
    CallOf(w, t);
    if Abandoned(w, c) { AbandonedApart(w, t, c); }
    EndLeaks(w, t, ok, c);
  }

  lemma ReadLeaks(w: World, t: Tid, c: CapsuleId)
    requires Inv(w) && t in w.threads && w.threads[t].call.ReadCall?
    ensures Abandoned(StepRead(w, t), c) <==> Abandoned(w, c)
    ensures forall ok :: !Leaks(w, t, ok, c)
  {
    hide Inv;
    CallOf(w, t);
  }

  lemma WriteLeaks(w: World, t: Tid, cid: CapsuleId, ok: bool, c: CapsuleId)
    requires Inv(w) && t in w.threads && w.threads[t].call.WriteCall? && (Draws(w.threads[t].pc) ==> cid !in w.used)
    ensures Abandoned(StepWrite(w, t, cid, ok), c) <==> Abandoned(w, c) || Leaks(w, t, ok, c)
  {
    hide Inv, Patch, StepEnd;
    CallOf(w, t);
    if Abandoned(w, c) { AbandonedApart(w, t, c); }
    if !w.threads[t].pc.Rewritten? { EndLeaks(w, t, ok, c); }
  }
}
