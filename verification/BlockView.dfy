/** `BlockView` over the write pipeline. Each stretch of a call between two lock or pipeline boundaries is a
    method that takes exactly one step of the protocol in `Volumes`, from any state that the other calls may have
    left; a whole call without interference is the run of its own steps. */
module BlockProtocol {
  import opened Types
  import opened Codec
  import opened Volumes
  import VS = VolumeSafety
  import VR = VolumeRuns
  import S = Store
  import R = Runs
  import NvramSim
  import Programs
  import Rec = Records
  import opened Pipeline

  const DEFAULT_POLICY := Policy(Lz4(1), true, false)

  /** What the volumes may contain: `legible` holds of contents that the pipeline reads back as they were written
      (a chunk that is stored raw and looks like a compressed frame is not read back). */
  ghost predicate Legible(env: Env, legible: Bytes -> bool) {
    forall b :: legible(b) ==> Readable(env, b)
  }

  predicate Readable(env: Env, b: Bytes) {
    forall i :: 0 <= i < |Chunks(b)| ==> R.UnambiguousChunk(env, DEFAULT_POLICY.compression, Chunks(b)[i])
  }

  /** Writing `data` at `offset` leads from legible contents to legible contents. */
  ghost predicate KeepsLegible(legible: Bytes -> bool, offset: nat, data: Bytes) {
    forall b :: legible(b) && offset + |data| <= |b| ==> legible(Patch(b, offset, data))
  }

  ghost predicate AllLegible(store: map<CapsuleId, Bytes>, legible: Bytes -> bool) {
    forall c :: c in store ==> legible(store[c])
  }

  predicate Unencrypted(l: NvramSim.Log) { forall id :: id in l.segs ==> l.segs[id].encryption.None? }

  /** Capsules whose recorded size is the size of what they read. */
  function Entries(store: map<CapsuleId, Bytes>): map<CapsuleId, S.Entry> {
    map cid | cid in store :: S.Entry(store[cid], |store[cid]|)
  }

  lemma EntriesChange(store: map<CapsuleId, Bytes>, cid: CapsuleId, data: Bytes)
    ensures Entries(store[cid := data]) == Entries(store)[cid := S.Entry(data, |data|)]
    ensures Entries(store - {cid}) == Entries(store) - {cid}
  {
  }

  /** The capsule store `store` is what the pipeline holds, with exact counts; and the pipeline has the keys or
      needs none. */
  ghost predicate Backed(env: Env, st: S.Store, held: multiset<SegmentId>, store: map<CapsuleId, Bytes>, keys: bool) {
    && SoundCipher(env) && CollisionFree(env)
    && S.Inv(env, st, held) && S.NoZero(st.log) && S.Shows(env, st, Entries(store))
    && (keys || Unencrypted(st.log))
  }

  /** Room for `size` more bytes before a reference count could saturate. */
  predicate Room(st: S.Store, size: nat) { Programs.Room(st.log, size / SEGMENT_SIZE + 1) }

  lemma {:induction false} ChunkCountBound(data: Bytes)
    ensures |Chunks(data)| <= |data| / SEGMENT_SIZE + 1
  {
    if |data| > SEGMENT_SIZE {
      ChunkCountBound(data[SEGMENT_SIZE..]);
    }
  }

  /** A pipeline write on a backed store: it adds the capsule or it changes nothing. */
  lemma WriteBacked(env: Env, st: S.Store, held: multiset<SegmentId>, store: map<CapsuleId, Bytes>, keys: bool, w: R.Work)
    returns (held': multiset<SegmentId>)
    requires w.SyncWork? && w.policy == DEFAULT_POLICY && Backed(env, st, held, store, keys) && Room(st, |w.data|)
    requires Readable(env, w.data)
    ensures var p := Programs.SyncWrite(st, w.cid, |w.data|, w.policy, R.FeedsOf(env, w.data, w.policy, w.keys, w.devices));
            Backed(env, S.Run(st, p.steps), held', if p.outcome.Ok? then store[w.cid := w.data] else store, keys)
  {
    hide S.Inv, S.Shows, S.NoZero, SoundCipher, CollisionFree, RawSafe, Chunks, AdaptiveCompress, Programs.SyncWrite, R.FeedsOf, Unencrypted, S.Run,
         R.Stored, R.UnambiguousChunk;
    ChunkCountBound(w.data);
    R.StoredIff(env, w);
    EntriesChange(store, w.cid, w.data);
    held' := R.EventOk(env, st, held, Entries(store), R.Done(w));
    if !keys { WriteUnencrypted(env, st, w); }
  }

  // ---------------------------------------------------------------- when a pipeline write succeeds

  /** The pipeline can store `data` under a free id: every chunk can be prepared, and the device works for every one that
      is not a duplicate of an earlier or a stored one. */
  predicate Storable(env: Env, st: S.Store, v: Option<nat>, data: Bytes, devices: nat -> Io) {
    Rec.AllWork(env, st, DEFAULT_POLICY, Always(v), Chunks(data), devices)
  }

  /** It can store `data` whatever it holds. */
  predicate AlwaysStorable(env: Env, v: Option<nat>, data: Bytes, devices: nat -> Io) {
    forall i :: 0 <= i < |Chunks(data)| ==> Rec.Preparable(env, DEFAULT_POLICY, v, Chunks(data)[i]) && devices(i).Good?
  }

  lemma AlwaysIsNow(env: Env, st: S.Store, v: Option<nat>, data: Bytes, devices: nat -> Io)
    requires AlwaysStorable(env, v, data, devices)
    ensures Storable(env, st, v, data, devices)
  {
    hide Chunks, Rec.Preparable, Rec.Duplicate;
  }

  /** A pipeline write fails only if the id is taken or the data cannot be stored. */
  lemma WriteSucceedsIff(env: Env, st: S.Store, held: multiset<SegmentId>, store: map<CapsuleId, Bytes>, keys: bool, v: Option<nat>,
                         cid: CapsuleId, data: Bytes, devices: nat -> Io)
    requires Backed(env, st, held, store, keys) && Room(st, |data|)
    ensures var p := Programs.SyncWrite(st, cid, |data|, DEFAULT_POLICY, R.FeedsOf(env, data, DEFAULT_POLICY, Always(v), devices));
            p.outcome.Ok? <==> cid !in store && Storable(env, st, v, data, devices)
  {
    hide S.Inv, S.NoZero, SoundCipher, CollisionFree, RawSafe, Chunks, Programs.SyncWrite, R.FeedsOf, Unencrypted, Programs.Room, Rec.AllWork, BytesWith,
         S.CapsuleBytes;
    var w := R.SyncWork(cid, data, DEFAULT_POLICY, Always(v), devices);
    ChunkCountBound(data);
    Programs.RoomSmaller(st.log, |data| / SEGMENT_SIZE + 1, R.ChunkCount(w));
    Rec.SyncSucceedsOn(env, st, held, w);
    BackedReads(env, st, held, store, keys, cid);
  }

  lemma DeleteBacked(env: Env, st: S.Store, held: multiset<SegmentId>, store: map<CapsuleId, Bytes>, keys: bool, cid: CapsuleId)
    requires Backed(env, st, held, store, keys)
    ensures Backed(env, S.Run(st, Programs.Delete(st, cid).steps), held, store - {cid}, keys)
  {
    hide S.Inv, S.NoZero, SoundCipher, CollisionFree, RawSafe, S.Run, Unencrypted;
    var steps := Programs.Delete(st, cid).steps;
    Programs.DeleteOk(env, st, held, cid);
    EntriesChange(store, cid, []);
    Programs.DeleteShows(env, st, held, cid, Entries(store), |steps|);
    assert steps[..|steps|] == steps;
    if cid !in store { assert store - {cid} == store; }
    if !keys { DeleteUnencrypted(st, cid); }
  }

  // ---------------------------------------------------------------- volumes are not encrypted

  /** The step encrypts nothing. */
  predicate PlainStep(s: S.Step) { (s.UpdateStep? ==> s.segment.encryption.None?) && !s.PublishStep? }

  lemma {:induction false} PlainSteps(st: S.Store, steps: seq<S.Step>)
    requires Unencrypted(st.log) && forall s :: s in steps ==> PlainStep(s)
    ensures Unencrypted(S.Run(st, steps).log)
  {
    if steps != [] {
      var before, s := steps[..|steps| - 1], steps[|steps| - 1];
      assert s in steps;
      PlainSteps(st, before);
      PlainStepKeeps(S.Run(st, before), s);
    }
  }

  lemma PlainStepKeeps(st: S.Store, s: S.Step)
    requires Unencrypted(st.log) && PlainStep(s)
    ensures Unencrypted(S.Do(st, s).log)
  {
  }

  lemma WriteUnencrypted(env: Env, st: S.Store, w: R.Work)
    requires w.SyncWork? && !w.policy.encrypt && Unencrypted(st.log)
    ensures var p := Programs.SyncWrite(st, w.cid, |w.data|, w.policy, R.FeedsOf(env, w.data, w.policy, w.keys, w.devices));
            Unencrypted(S.Run(st, p.steps).log)
  {
    hide Chunks, AdaptiveCompress, S.Run, Programs.WriteLoop;
    var feeds := R.FeedsOf(env, w.data, w.policy, w.keys, w.devices);
    forall i | 0 <= i < |feeds| && feeds[i].prep.Ok? ensures feeds[i].prep.value.encryption.None? {
      assert feeds[i].prep == Prepare(env, w.policy, w.keys(i), Chunks(w.data)[i]);
    }
    LoopPlain(st, w.policy.dedupe, feeds);
    PlainSteps(st, Programs.SyncWrite(st, w.cid, |w.data|, w.policy, feeds).steps);
  }

  lemma {:induction false} LoopPlain(st: S.Store, dedupe: bool, feeds: seq<Programs.Feed>)
    requires forall i :: 0 <= i < |feeds| && feeds[i].prep.Ok? ==> feeds[i].prep.value.encryption.None?
    ensures forall s :: s in Programs.WriteLoop(st, dedupe, feeds).steps ==> PlainStep(s)
  {
    hide S.Run;
    if feeds != [] {
      LoopPlain(st, dedupe, feeds[..|feeds| - 1]);
    }
  }

  lemma DeleteUnencrypted(st: S.Store, cid: CapsuleId)
    requires Unencrypted(st.log)
    ensures Unencrypted(S.Run(st, Programs.Delete(st, cid).steps).log)
  {
    hide S.Run, Programs.ReleaseLoop;
    if cid in st.reg.capsules {
      ReleasePlain(S.Do(st, S.DropStep(cid)), st.reg.capsules[cid].segments);
    }
    PlainSteps(st, Programs.Delete(st, cid).steps);
  }

  lemma {:induction false} ReleasePlain(st: S.Store, ids: seq<SegmentId>)
    ensures forall s :: s in Programs.ReleaseLoop(st, ids).steps ==> PlainStep(s)
  {
    hide S.Run;
    if ids != [] {
      ReleasePlain(st, ids[..|ids| - 1]);
    }
  }

  /** One step of the machine. */
  ghost predicate Stepped(w: World, a: Action, w': World) { Enabled(w, a) && w' == Next(w, a) }

  /** A range of a capsule. */
  function Fetched(store: map<CapsuleId, Bytes>, cid: CapsuleId, offset: nat, len: nat): Reply {
    if cid !in store then Failed(CapsuleGone)
    else if offset + len > |store[cid]| then Failed(BeyondEnd)
    else Got(store[cid][offset..offset + len])
  }

  /** The next thing a call does: go on, or return. */
  datatype Outcome<+T> = Continue(value: T) | Return(reply: Reply)

  class BlockView {
    const pipeline: WritePipeline
    var volumes: map<Name, Volume>
    var metadataFile: map<Name, Volume>
    ghost const legible: Bytes -> bool
    ghost var world: World                 // the protocol's state, other calls included
    ghost var held: multiset<SegmentId>    // references left by pipeline writes that failed

    ghost predicate Valid() reads this, pipeline, pipeline.registry, pipeline.nvram {
      && pipeline.Valid() && Backed(pipeline.env, pipeline.View(), held, world.store, pipeline.keyVersion.Some?)
      && VS.Inv(world) && world.volumes == volumes && world.disk == metadataFile
      && Legible(pipeline.env, legible) && AllLegible(world.store, legible)
    }

    /** Call `t` stands at `pc`. */
    ghost predicate Stands(t: Tid, call: Call, pc: Pc) reads this {
      t in world.threads && world.threads[t] == Thread(call, pc)
    }

    constructor (pipeline: WritePipeline, ghost held: multiset<SegmentId>, ghost store: map<CapsuleId, Bytes>, ghost legible: Bytes -> bool)
      requires pipeline.Valid() && Backed(pipeline.env, pipeline.View(), held, store, pipeline.keyVersion.Some?)
      requires Legible(pipeline.env, legible) && AllLegible(store, legible)
      ensures Valid() && this.pipeline == pipeline && this.legible == legible && world == VR.Opening(store)
    {
      this.pipeline, this.held, this.legible, this.world := pipeline, held, legible, VR.Opening(store);
      volumes, metadataFile := map[], map[];
      hide VS.Inv, Backed, Legible, KeepsLegible, AllLegible;
      VR.OpeningOk(store);
      new;
    }

    /** The view opened again, by a new process, from the table that the last one saved. */
    constructor Open(pipeline: WritePipeline, file: map<Name, Volume>, ghost before: World, ghost held: multiset<SegmentId>,
                     ghost legible: Bytes -> bool)
      requires pipeline.Valid() && VS.Inv(before) && file == before.disk
      requires Backed(pipeline.env, pipeline.View(), held, before.store, pipeline.keyVersion.Some?)
      requires Legible(pipeline.env, legible) && AllLegible(before.store, legible)
      ensures Valid() && this.pipeline == pipeline && this.legible == legible && world == Reopened(before)
    {
      this.pipeline, this.held, this.legible, this.world := pipeline, held, legible, Reopened(before);
      volumes, metadataFile := file, file;
      new;
      hide VS.Inv, Backed, Legible, KeepsLegible, AllLegible;
      VR.RestartKeeps(before);
    }

    // ------------------------------------------------------------ the pipeline, as an abstract store

    method PutCapsule(cid: CapsuleId, data: Bytes, devices: nat -> Io) returns (ok: bool)
      requires Valid() && Room(pipeline.View(), |data|) && legible(data)
      modifies this`held, pipeline.registry, pipeline.nvram
      ensures pipeline.Valid()
      ensures Backed(pipeline.env, pipeline.View(), held, if ok then world.store[cid := data] else world.store, pipeline.keyVersion.Some?)
      ensures ok <==> cid !in world.store && Storable(pipeline.env, old(pipeline.View()), pipeline.keyVersion, data, devices)
    {
      hide Backed, VS.Inv, Readable, KeepsLegible, AllLegible, Room, S.Run, Programs.SyncWrite, R.FeedsOf, Storable;
      WriteSucceedsIff(pipeline.env, pipeline.View(), held, world.store, pipeline.keyVersion.Some?, pipeline.keyVersion, cid, data, devices);
      ghost var w := R.SyncWork(cid, data, DEFAULT_POLICY, Always(pipeline.keyVersion), devices);
      ghost var held' := WriteBacked(pipeline.env, pipeline.View(), held, world.store, pipeline.keyVersion.Some?, w);
      var r := pipeline.WriteCapsule(cid, data, DEFAULT_POLICY, devices);
      held := held';
      ok := r.Ok?;
    }

    method DropCapsule(cid: CapsuleId)
      requires Valid()
      modifies pipeline.registry, pipeline.nvram
      ensures pipeline.Valid() && Backed(pipeline.env, pipeline.View(), held, world.store - {cid}, pipeline.keyVersion.Some?)
    {
      hide Backed, VS.Inv, Legible, KeepsLegible, AllLegible, S.Run, Programs.Delete;
      DeleteBacked(pipeline.env, pipeline.View(), held, world.store, pipeline.keyVersion.Some?, cid);
      var _ := pipeline.DeleteCapsule(cid);
    }

    method GetCapsule(cid: CapsuleId) returns (r: Option<Bytes>)
      requires Valid()
      ensures r == if cid in world.store then Some(world.store[cid]) else None
    {
      hide VS.Inv;
      BackedReads(pipeline.env, pipeline.View(), held, world.store, pipeline.keyVersion.Some?, cid);
      var read := pipeline.ReadCapsule(cid);
      r := if read.Ok? then Some(read.value) else None;
    }

    /** The call takes one step of the protocol. */
    ghost method Advance(a: Action)
      requires VS.Inv(world) && Enabled(world, a)
      modifies this`world
      ensures world == Next(old(world), a) && VS.Inv(world)
    {
      VR.NextKeeps(world, a);
      world := Next(world, a);
    }

    // ------------------------------------------------------------ the stretches of a create

    method CheckNew(name: Name, size: nat, blockSize: nat, ghost t: Tid) returns (o: Outcome<()>)
      requires Valid() && Stands(t, CreateCall(name, size, blockSize), Called)
      modifies this`world
      ensures Valid() && world == Next(old(world), Go(t, 0, true))
      ensures world == old(world).(threads := world.threads)
      ensures Stands(t, CreateCall(name, size, blockSize), if o.Continue? then Checked else Ended(o.reply))
      ensures o == if !NameOk(name) then Return(Failed(BadName))
                   else if !SizeOk(size, blockSize) then Return(Failed(BadSize))
                   else if name in volumes then Return(Failed(VolumeExists)) else Continue(())
    {
      hide Backed, VS.Inv, Legible, KeepsLegible, AllLegible, NameOk, SizeOk;
      Advance(Go(t, 0, true));
      if !NameOk(name) { return Return(Failed(BadName)); }
      if !SizeOk(size, blockSize) { return Return(Failed(BadSize)); }
      if name in volumes { return Return(Failed(VolumeExists)); }
      o := Continue(());
    }

    method BuildCapsule(name: Name, size: nat, blockSize: nat, cid: CapsuleId, devices: nat -> Io, ghost t: Tid)
      returns (o: Outcome<()>)
      requires Valid() && Stands(t, CreateCall(name, size, blockSize), Checked)
      requires cid !in world.used && Room(pipeline.View(), size) && legible(Zeros(size))
      modifies this`world, this`held, pipeline.registry, pipeline.nvram
      ensures Valid() && world == Next(old(world), Go(t, cid, o.Continue?))
      ensures world.log == old(world).log
      ensures Stands(t, CreateCall(name, size, blockSize), if o.Continue? then Built(cid) else Ended(o.reply))
      ensures o == if Storable(pipeline.env, old(pipeline.View()), pipeline.keyVersion, Zeros(size), devices) then Continue(())
                   else Return(Failed(StoreFailed))
    {
      hide Backed, VS.Inv, Legible, KeepsLegible, Room, Storable;
      UnusedFree(world, cid);
      var ok := PutCapsule(cid, Zeros(size), devices);
      Advance(Go(t, cid, ok));
      o := if ok then Continue(()) else Return(Failed(StoreFailed));
    }

    /** Under the write lock: insert the volume unless another call has created it. */
    method InsertVolume(name: Name, size: nat, blockSize: nat, cid: CapsuleId, ghost t: Tid) returns (lost: bool)
      requires Valid() && Stands(t, CreateCall(name, size, blockSize), Built(cid))
      modifies this`world, this`volumes
      ensures Valid() && world == Next(old(world), Go(t, 0, true))
      ensures lost == (name in old(volumes))
      ensures world.log == if lost then old(world).log else old(world).log + [(t, Made(name, size))]
      ensures Stands(t, CreateCall(name, size, blockSize), if lost then Losing(cid, VolumeExists) else Applied(None))
    {
      hide Backed, VS.Inv, Legible, KeepsLegible, AllLegible;
      Advance(Go(t, 0, true));
      lost := name in volumes;
      if !lost { volumes := volumes[name := Volume(size, blockSize, cid, 1)]; }
    }

    // ------------------------------------------------------------ how calls end

    /** Save the table; only then may the superseded capsule go. */
    method Persist(prior: Option<CapsuleId>, saveOk: bool, ghost call: Call, ghost t: Tid) returns (o: Outcome<CapsuleId>)
      requires Valid() && Stands(t, call, Applied(prior)) && !call.ReadCall?
      modifies this`world, this`metadataFile
      ensures Valid() && world == Next(old(world), Go(t, 0, saveOk))
      ensures world.log == old(world).log
      ensures Stands(t, call, if o.Continue? then Saved(o.value) else Ended(o.reply))
      ensures o == if !saveOk then Return(Failed(PersistFailed)) else if prior.Some? then Continue(prior.value) else Return(Done)
    {
      hide Backed, VS.Inv, Legible, KeepsLegible, AllLegible;
      Advance(Go(t, 0, saveOk));
      if !saveOk { return Return(Failed(PersistFailed)); }
      metadataFile := volumes;
      o := if prior.Some? then Continue(prior.value) else Return(Done);
    }

    /** Delete the capsule that the table no longer names, or that never got into it. */
    method Discard(cid: CapsuleId, ghost call: Call, ghost t: Tid)
      requires Valid() && t in world.threads && world.threads[t].call == call && !call.ReadCall?
      requires world.threads[t].pc == Saved(cid) || (world.threads[t].pc.Losing? && world.threads[t].pc.cid == cid)
      modifies this`world, pipeline.registry, pipeline.nvram
      ensures Valid() && Stepped(old(world), Go(t, 0, true), world)
      ensures world.log == old(world).log
      ensures var pc := old(world.threads[t].pc); Stands(t, call, Ended(if pc.Saved? then Done else Failed(pc.why)))
    {
      hide Backed, VS.Inv, Legible, KeepsLegible;
      DropCapsule(cid);
      Advance(Go(t, 0, true));
    }

    // ------------------------------------------------------------ the stretches of a delete, a read and a write

    method RemoveVolume(name: Name, ghost t: Tid) returns (o: Outcome<CapsuleId>)
      requires Valid() && Stands(t, DeleteCall(name), Called)
      modifies this`world, this`volumes
      ensures Valid() && world == Next(old(world), Go(t, 0, true))
      ensures world.log == if o.Continue? then old(world).log + [(t, Gone(name))] else old(world).log
      ensures Stands(t, DeleteCall(name), if o.Continue? then Applied(Some(o.value)) else Ended(o.reply))
      ensures o == if name in old(volumes) then Continue(old(volumes)[name].cid) else Return(Failed(VolumeNotFound))
    {
      hide Backed, VS.Inv, Legible, KeepsLegible, AllLegible;
      Advance(Go(t, 0, true));
      if name !in volumes { return Return(Failed(VolumeNotFound)); }
      o := Continue(volumes[name].cid);
      volumes := volumes - {name};
    }

    method ReadSnapshot(name: Name, offset: nat, len: nat, ghost t: Tid) returns (o: Outcome<Volume>)
      requires Valid() && Stands(t, ReadCall(name, offset, len), Called)
      modifies this`world
      ensures Valid() && world == Next(old(world), Go(t, 0, true))
      ensures world == old(world).(threads := world.threads)
      ensures Stands(t, ReadCall(name, offset, len), if o.Continue? then Looked(o.value, |world.log|) else Ended(o.reply))
      ensures o == if name !in volumes then Return(Failed(VolumeNotFound))
                   else if offset + len > volumes[name].size then Return(Failed(BeyondEnd)) else Continue(volumes[name])
    {
      hide Backed, VS.Inv, Legible, KeepsLegible, AllLegible;
      Advance(Go(t, 0, true));
      if name !in volumes { return Return(Failed(VolumeNotFound)); }
      if offset + len > volumes[name].size { return Return(Failed(BeyondEnd)); }
      o := Continue(volumes[name]);
    }

    method ReadVolume(v: Volume, ghost at: nat, name: Name, offset: nat, len: nat, ghost t: Tid) returns (r: Reply)
      requires Valid() && Stands(t, ReadCall(name, offset, len), Looked(v, at))
      modifies this`world
      ensures Valid() && world == Next(old(world), Go(t, 0, true))
      ensures world == old(world).(threads := world.threads)
      ensures Stands(t, ReadCall(name, offset, len), Ended(r))
      ensures r == Fetched(old(world).store, v.cid, offset, len)
    {
      hide BytesWith, ReadWith, S.CapsuleBytes, VS.Inv, Backed, Legible, KeepsLegible, AllLegible;
      BackedReads(pipeline.env, pipeline.View(), held, world.store, pipeline.keyVersion.Some?, v.cid);
      Advance(Go(t, 0, true));
      var read := pipeline.ReadRange(v.cid, offset, len);
      r := match read
           case Ok(bytes) => Got(bytes)
           case Err(e) => Failed(if e == OutOfRange then BeyondEnd else CapsuleGone);
    }

    method WriteSnapshot(name: Name, offset: nat, data: Bytes, ghost t: Tid) returns (o: Outcome<Volume>)
      requires Valid() && Stands(t, WriteCall(name, offset, data), Called)
      modifies this`world
      ensures Valid() && world == Next(old(world), Go(t, 0, true))
      ensures world == old(world).(threads := world.threads)
      ensures Stands(t, WriteCall(name, offset, data), if o.Continue? then Looked(o.value, |world.log|) else Ended(o.reply))
      ensures o == if data == [] then Return(Done)
                   else if name !in volumes then Return(Failed(VolumeNotFound))
                   else if offset + |data| > volumes[name].size then Return(Failed(BeyondEnd)) else Continue(volumes[name])
    {
      hide Backed, VS.Inv, Legible, KeepsLegible, AllLegible;
      Advance(Go(t, 0, true));
      if data == [] { return Return(Done); }
      if name !in volumes { return Return(Failed(VolumeNotFound)); }
      if offset + |data| > volumes[name].size { return Return(Failed(BeyondEnd)); }
      o := Continue(volumes[name]);
    }

    /** Read the whole capsule and overwrite the range in the copy. */
    method CopyAndPatch(v: Volume, ghost at: nat, name: Name, offset: nat, data: Bytes, ghost t: Tid) returns (o: Outcome<Bytes>)
      requires Valid() && Stands(t, WriteCall(name, offset, data), Looked(v, at)) && KeepsLegible(legible, offset, data)
      modifies this`world
      ensures Valid() && world == Next(old(world), Go(t, 0, true))
      ensures world == old(world).(threads := world.threads)
      ensures Stands(t, WriteCall(name, offset, data), if o.Continue? then Copied(v, at, o.value) else Ended(o.reply))
      ensures o == if v.cid in old(world).store then Continue(Patch(old(world).store[v.cid], offset, data)) else Return(Failed(CapsuleGone))
      ensures o.Continue? ==> |o.value| == v.size && legible(o.value)
    {
      hide Backed, VS.Inv, Legible, Patch;
      var found := GetCapsule(v.cid);
      VR.LookedFits(world, t);
      Advance(Go(t, 0, true));
      if found.None? { return Return(Failed(CapsuleGone)); }
      var buffer := new byte[|found.value|](i requires 0 <= i < |found.value| => found.value[i]);
      assert buffer[..] == found.value;
      Overwrite(buffer, offset, data);
      o := Continue(buffer[..]);
    }

    method StoreCopy(v: Volume, ghost at: nat, buffer: Bytes, name: Name, offset: nat, data: Bytes, cid: CapsuleId,
                     devices: nat -> Io, ghost t: Tid) returns (o: Outcome<()>)
      requires Valid() && Stands(t, WriteCall(name, offset, data), Copied(v, at, buffer))
      requires cid !in world.used && Room(pipeline.View(), |buffer|) && legible(buffer)
      modifies this`world, this`held, pipeline.registry, pipeline.nvram
      ensures Valid() && world == Next(old(world), Go(t, cid, o.Continue?))
      ensures world.log == old(world).log
      ensures Stands(t, WriteCall(name, offset, data), if o.Continue? then Rewritten(v, at, cid) else Ended(o.reply))
      ensures o == if Storable(pipeline.env, old(pipeline.View()), pipeline.keyVersion, buffer, devices) then Continue(())
                   else Return(Failed(StoreFailed))
    {
      hide Backed, VS.Inv, Legible, KeepsLegible, Room, Storable;
      UnusedFree(world, cid);
      var ok := PutCapsule(cid, buffer, devices);
      Advance(Go(t, cid, ok));
      o := if ok then Continue(()) else Return(Failed(StoreFailed));
    }

    /** Under the write lock: swap the capsule in if the volume is as it was. */
    method Swap(v: Volume, ghost at: nat, name: Name, offset: nat, data: Bytes, cid: CapsuleId, ghost t: Tid)
      returns (o: Outcome<bool>)
      requires Valid() && Stands(t, WriteCall(name, offset, data), Rewritten(v, at, cid))
      modifies this`world, this`volumes
      ensures Valid() && world == Next(old(world), Go(t, 0, true))
      ensures world.log == if o == Continue(true) then old(world).log + [(t, Patched(name, offset, data))] else old(world).log
      ensures Stands(t, WriteCall(name, offset, data),
                     if o.Return? then Ended(o.reply) else if o.value then Applied(Some(v.cid)) else Losing(cid, Conflict))
      ensures o == if name !in old(volumes) then Return(Failed(VolumeNotFound)) else Continue(old(volumes)[name].version == v.version && old(volumes)[name].cid == v.cid)
    {
      hide Backed, VS.Inv, Legible, KeepsLegible, AllLegible;
      Advance(Go(t, 0, true));
      if name !in volumes { return Return(Failed(VolumeNotFound)); }
      var now := volumes[name];
      if now.version != v.version || now.cid != v.cid { return Continue(false); }
      volumes := volumes[name := now.(cid := cid, version := if now.version < U64_MAX then now.version + 1 else now.version)];
      o := Continue(true);
    }

    // ------------------------------------------------------------ whole calls

    /** Between two stretches of call `t` other calls may run, in any number and any order. This contract is all
        that `t` may rely on: that the others take steps of the protocol, but none of `t`, do not draw its capsule
        id, and leave room for its capsule. */
    method Yield(ghost t: Tid, ghost cid: CapsuleId, ghost size: nat) returns (ghost others: seq<Action>)
      requires Valid() && t in world.threads
      modifies this`world, this`held, this`volumes, this`metadataFile, pipeline.registry, pipeline.nvram
      ensures Valid() && Ran(old(world), others, world)
      ensures t in world.threads && world.threads[t] == old(world).threads[t]
      ensures cid !in old(world).used ==> cid !in world.used
      ensures old(Room(pipeline.View(), size)) ==> Room(pipeline.View(), size)
      ensures forall a :: a in others ==> !By(a, t)
      ensures others == [] ==> pipeline.View() == old(pipeline.View())
    {
      others := [];
    }

    /** The others run; if nobody but `t` appears in the whole run, nothing has happened. */
    method Pause(ghost t: Tid, ghost cid: CapsuleId, ghost size: nat, ghost w0: World, ghost run0: seq<Action>) returns (ghost run: seq<Action>)
      requires Valid() && t in world.threads && Ran(w0, run0, world)
      modifies this`world, this`held, this`volumes, this`metadataFile, pipeline.registry, pipeline.nvram
      ensures Valid() && Ran(w0, run, world) && old(world).log <= world.log
      ensures t in world.threads && world.threads[t] == old(world).threads[t]
      ensures cid !in old(world).used ==> cid !in world.used
      ensures old(Room(pipeline.View(), size)) ==> Room(pipeline.View(), size)
      ensures Alone(run, t) ==> Alone(run0, t) && world == old(world) && pipeline.View() == old(pipeline.View())
    {
      hide VS.Inv, Backed, Legible, AllLegible, Room, Next;
      ghost var w := world;
      ghost var others := Yield(t, cid, size);
      run := Joined(w0, run0, w, others, world);
      VR.LogGrows(w, others);
      NoOthers(run0, others, t);
    }

    /** A new call begins. */
    ghost method Begin(t: Tid, call: Call) returns (run: seq<Action>)
      requires VS.Inv(world) && t !in world.threads
      modifies this`world
      ensures VS.Inv(world) && Stands(t, call, Called) && Ran(old(world), run, world)
      ensures world == old(world).(threads := world.threads)
    {
      hide VS.Inv;
      run := Extended(world, [], world, Start(t, call));
      Advance(Start(t, call));
    }

    /** Success: the volume was made, by this call and once, and the saved table has it. Any error but a failed
        save: this call made none. The errors are those of the arguments, or of a name that is taken at the start or
        that another call has changed since, or of a pipeline that cannot store the zeros, or of a save; and the
        reply of a call that nobody disturbs is known beforehand. */
    method CreateVolume(name: Name, size: nat, blockSize: nat, cid: CapsuleId, devices: nat -> Io, saveOk: bool, ghost t: Tid)
      returns (r: Reply, ghost run: seq<Action>)
      requires Valid() && t !in world.threads && cid !in world.used && Room(pipeline.View(), size) && legible(Zeros(size))
      modifies this`world, this`held, this`volumes, this`metadataFile, pipeline.registry, pipeline.nvram
      ensures Valid() && Stands(t, CreateCall(name, size, blockSize), Ended(r)) && Ran(old(world), run, world)
      ensures r == Done ==> NameOk(name) && SizeOk(size, blockSize) && VS.SavedOnce(world, t, Made(name, size))
      ensures r.Failed? && r.why !in {PersistFailed, Killed} ==> VS.Never(world.log, t)
      ensures if !NameOk(name) then r == Failed(BadName)
              else if !SizeOk(size, blockSize) then r == Failed(BadSize)
              else if name in old(volumes) then r == Failed(VolumeExists)
              else || r == Ending(saveOk)
                   || (r == Failed(StoreFailed) && !AlwaysStorable(pipeline.env, pipeline.keyVersion, Zeros(size), devices))
                   || (r == Failed(VolumeExists) && VS.ChangedSince(world.log, name, |old(world).log|))
      ensures Alone(run, t) && NameOk(name) && SizeOk(size, blockSize) && name !in old(volumes) ==>
                r == if Storable(pipeline.env, old(pipeline.View()), pipeline.keyVersion, Zeros(size), devices) then Ending(saveOk)
                     else Failed(StoreFailed)
    {
      hide VS.Inv, Backed, Legible, KeepsLegible, AllLegible, Room, Ran, Next, NameOk, SizeOk, VS.SavedOnce, VS.Never, VS.ChangedSince, Alone,
           Storable, AlwaysStorable;
      ghost var call, w0 := CreateCall(name, size, blockSize), world;
      run := Begin(t, call);
      ghost var w := world;
      var checked := CheckNew(name, size, blockSize, t);
      run := Extended(w0, run, w, Go(t, 0, true));
      if checked.Return? { Answered(world, t); return checked.reply, run; }
      r, run := MakeVolume(name, size, blockSize, cid, devices, saveOk, t, w0, run);
      Answered(world, t);
    }

    method MakeVolume(name: Name, size: nat, blockSize: nat, cid: CapsuleId, devices: nat -> Io, saveOk: bool, ghost t: Tid,
                      ghost w0: World, ghost run0: seq<Action>)
      returns (r: Reply, ghost run: seq<Action>)
      requires Valid() && Stands(t, CreateCall(name, size, blockSize), Checked) && Ran(w0, run0, world)
      requires cid !in world.used && Room(pipeline.View(), size) && legible(Zeros(size))
      requires VS.Inv(w0) && w0.log == world.log && name !in w0.volumes && name !in volumes
      modifies this`world, this`held, this`volumes, this`metadataFile, pipeline.registry, pipeline.nvram
      ensures Valid() && Stands(t, CreateCall(name, size, blockSize), Ended(r)) && Ran(w0, run, world)
      ensures || r == Ending(saveOk)
              || (r == Failed(StoreFailed) && !AlwaysStorable(pipeline.env, pipeline.keyVersion, Zeros(size), devices))
              || (r == Failed(VolumeExists) && VS.ChangedSince(world.log, name, |w0.log|))
      ensures Alone(run, t) ==>
                r == if Storable(pipeline.env, old(pipeline.View()), pipeline.keyVersion, Zeros(size), devices) then Ending(saveOk)
                     else Failed(StoreFailed)
    {
      hide VS.Inv, Backed, Legible, KeepsLegible, AllLegible, Room, Ran, Next, NameOk, SizeOk, VS.ChangedSince, Alone, Storable, AlwaysStorable, Zeros;
      run := Pause(t, cid, size, w0, run0);
      ghost var w := world;
      StorableNow(pipeline.env, pipeline.View(), pipeline.keyVersion, Zeros(size), devices);
      var built := BuildCapsule(name, size, blockSize, cid, devices, t);
      run := Extended(w0, run, w, Go(t, cid, built.Continue?));
      if built.Return? { return built.reply, run; }
      r, run := FinishCreate(name, size, blockSize, cid, saveOk, t, w0, run);
    }

    method FinishCreate(name: Name, size: nat, blockSize: nat, cid: CapsuleId, saveOk: bool, ghost t: Tid, ghost w0: World,
                        ghost run0: seq<Action>)
      returns (r: Reply, ghost run: seq<Action>)
      requires Valid() && Stands(t, CreateCall(name, size, blockSize), Built(cid)) && Ran(w0, run0, world)
      requires VS.Inv(w0) && w0.log <= world.log && name !in w0.volumes
      modifies this`world, this`held, this`volumes, this`metadataFile, pipeline.registry, pipeline.nvram
      ensures Valid() && Stands(t, CreateCall(name, size, blockSize), Ended(r)) && Ran(w0, run, world)
      ensures r == Ending(saveOk) || (r == Failed(VolumeExists) && VS.ChangedSince(world.log, name, |w0.log|))
      ensures Alone(run, t) ==> Alone(run0, t) && (name !in old(volumes) ==> r == Ending(saveOk))
    {
      hide VS.Inv, Backed, Legible, KeepsLegible, AllLegible, Room, Ran, Next, NameOk, SizeOk, VS.ChangedSince, Alone;
      ghost var call := CreateCall(name, size, blockSize);
      run := Pause(t, 0, 0, w0, run0);
      ghost var w := world;
      if name in volumes { NewNameChanged(w0, w, name); }
      var lost := InsertVolume(name, size, blockSize, cid, t);
      run := Extended(w0, run, w, Go(t, 0, true));
      if !lost {
        r, run := FinishChange(None, saveOk, call, t, w0, run);
        return;
      }
      run := Pause(t, 0, 0, w0, run);
      VR.ChangedStays(w.log, world.log, name, |w0.log|);
      w := world;
      Discard(cid, call, t);
      run := Extended(w0, run, w, Go(t, 0, true));
      r := Failed(VolumeExists);
    }

    /** What a call does after it has changed the table. */
    method FinishChange(prior: Option<CapsuleId>, saveOk: bool, ghost call: Call, ghost t: Tid, ghost w0: World, ghost run0: seq<Action>)
      returns (r: Reply, ghost run: seq<Action>)
      requires Valid() && Stands(t, call, Applied(prior)) && !call.ReadCall? && Ran(w0, run0, world)
      modifies this`world, this`held, this`volumes, this`metadataFile, pipeline.registry, pipeline.nvram
      ensures Valid() && Stands(t, call, Ended(r)) && Ran(w0, run, world)
      ensures r == Ending(saveOk) && (Alone(run, t) ==> Alone(run0, t))
    {
      hide VS.Inv, Backed, Legible, KeepsLegible, AllLegible, Room, Ran, Next, Alone;
      run := Pause(t, 0, 0, w0, run0);
      ghost var w := world;
      var saved := Persist(prior, saveOk, call, t);
      run := Extended(w0, run, w, Go(t, 0, saveOk));
      if saved.Return? { return saved.reply, run; }
      run := Pause(t, 0, 0, w0, run);
      w := world;
      Discard(saved.value, call, t);
      run := Extended(w0, run, w, Go(t, 0, true));
      r := Done;
    }

    method DeleteVolume(name: Name, saveOk: bool, ghost t: Tid) returns (r: Reply, ghost run: seq<Action>)
      requires Valid() && t !in world.threads
      modifies this`world, this`held, this`volumes, this`metadataFile, pipeline.registry, pipeline.nvram
      ensures Valid() && Stands(t, DeleteCall(name), Ended(r)) && Ran(old(world), run, world)
      ensures r == if name !in old(volumes) then Failed(VolumeNotFound) else Ending(saveOk)
      ensures r == Done ==> VS.SavedOnce(world, t, Gone(name))
      ensures r == Failed(VolumeNotFound) ==> VS.Never(world.log, t)
    {
      hide VS.Inv, Backed, Legible, KeepsLegible, AllLegible, Room, Ran, Next, VS.SavedOnce, VS.Never;
      ghost var call, w0 := DeleteCall(name), world;
      run := Begin(t, call);
      ghost var w := world;
      var removed := RemoveVolume(name, t);
      run := Extended(w0, run, w, Go(t, 0, true));
      if removed.Return? { Answered(world, t); return removed.reply, run; }
      r, run := FinishChange(Some(removed.value), saveOk, call, t, w0, run);
      Answered(world, t);
    }

    /** A successful read returns a range of what the volume read when the call took its snapshot; it fails only
        if there is no such range, or if another call has changed the volume since. */
    method Read(name: Name, offset: nat, len: nat, ghost t: Tid) returns (r: Reply, ghost run: seq<Action>)
      requires Valid() && t !in world.threads
      modifies this`world, this`held, this`volumes, this`metadataFile, pipeline.registry, pipeline.nvram
      ensures Valid() && Stands(t, ReadCall(name, offset, len), Ended(r)) && Ran(old(world), run, world)
      ensures VS.Never(world.log, t)
      ensures var all := VR.Contents(old(world));
              if name !in all then r == Failed(VolumeNotFound)
              else if offset + len > |all[name]| then r == Failed(BeyondEnd)
              else r == Got(all[name][offset..offset + len])
                   || (r == Failed(CapsuleGone) && VS.ChangedSince(world.log, name, |old(world).log|))
    {
      hide VS.Inv, Backed, Legible, KeepsLegible, AllLegible, Room, Ran, Next, VS.Never, VS.ChangedSince, VS.SnapshotOk, VR.Contents, VS.Replay, Alone;
      ghost var call, w0 := ReadCall(name, offset, len), world;
      ReadsVolumes(w0);
      run := Begin(t, call);
      ghost var w := world;
      var looked := ReadSnapshot(name, offset, len, t);
      run := Extended(w0, run, w, Go(t, 0, true));
      Answered(world, t);
      if looked.Return? { return looked.reply, run; }
      run := Pause(t, 0, 0, w0, run);
      assert world.log[..|w0.log|] == w0.log;
      VR.LookedOk(world, t);
      VR.SnapshotReads(world, name, looked.value, |w0.log|);
      w := world;
      if looked.value.cid !in w.store { VR.GoneMeansChanged(w, t); }
      r := ReadVolume(looked.value, |w0.log|, name, offset, len, t);
      run := Extended(w0, run, w, Go(t, 0, true));
      Answered(world, t);
    }

    /** Success: the patch was applied, by this call and once, to what the volume read just before, and the saved
        table has it. Any error but a failed save: this call changed nothing. The errors are those of the arguments, or of
        a volume that another call has changed since, or of a pipeline that cannot store the patched contents, or of a
        save; and the reply of a call that nobody disturbs is known beforehand. */
    method Write(name: Name, offset: nat, data: Bytes, cid: CapsuleId, devices: nat -> Io, saveOk: bool, ghost t: Tid)
      returns (r: Reply, ghost run: seq<Action>)
      requires Valid() && t !in world.threads && cid !in world.used && KeepsLegible(legible, offset, data)
      requires name in volumes ==> Room(pipeline.View(), volumes[name].size)
      modifies this`world, this`held, this`volumes, this`metadataFile, pipeline.registry, pipeline.nvram
      ensures Valid() && Stands(t, WriteCall(name, offset, data), Ended(r)) && Ran(old(world), run, world)
      ensures r == Done && data != [] ==> VS.SavedOnce(world, t, Patched(name, offset, data))
      ensures r == Done && data == [] ==> VS.Never(world.log, t)
      ensures r.Failed? && r.why !in {PersistFailed, Killed} ==> VS.Never(world.log, t)
      ensures var all := VR.Contents(old(world));
              if data == [] then r == Done
              else if name !in all then r == Failed(VolumeNotFound)
              else if offset + |data| > |all[name]| then r == Failed(BeyondEnd)
              else || r == Ending(saveOk)
                   || (r == Failed(StoreFailed) && !AlwaysStorable(pipeline.env, pipeline.keyVersion, Patch(all[name], offset, data), devices))
                   || (r in {Failed(VolumeNotFound), Failed(CapsuleGone), Failed(Conflict)} && VS.ChangedSince(world.log, name, |old(world).log|))
      ensures var all := VR.Contents(old(world));
              Alone(run, t) && data != [] && name in all && offset + |data| <= |all[name]| ==>
                r == if Storable(pipeline.env, old(pipeline.View()), pipeline.keyVersion, Patch(all[name], offset, data), devices) then Ending(saveOk)
                     else Failed(StoreFailed)
    {
      hide VS.Inv, Backed, Legible, KeepsLegible, AllLegible, Room, Ran, Next, VS.SavedOnce, VS.Never, VS.ChangedSince, VR.Contents, Alone, Storable,
           AlwaysStorable;
      ghost var call, w0 := WriteCall(name, offset, data), world;
      ReadsVolumes(w0);
      run := Begin(t, call);
      ghost var w := world;
      var looked := WriteSnapshot(name, offset, data, t);
      run := Extended(w0, run, w, Go(t, 0, true));
      if looked.Return? { Answered(world, t); return looked.reply, run; }
      r, run := CopyOver(looked.value, |world.log|, name, offset, data, cid, devices, saveOk, t, w0, run);
      Answered(world, t);
    }

    method CopyOver(v: Volume, ghost at: nat, name: Name, offset: nat, data: Bytes, cid: CapsuleId, devices: nat -> Io, saveOk: bool,
                    ghost t: Tid, ghost w0: World, ghost run0: seq<Action>)
      returns (r: Reply, ghost run: seq<Action>)
      requires Valid() && Stands(t, WriteCall(name, offset, data), Looked(v, at)) && Ran(w0, run0, world)
      requires cid !in world.used && Room(pipeline.View(), v.size) && KeepsLegible(legible, offset, data)
      requires VS.Inv(w0) && w0.log == world.log && at == |w0.log| && name in VR.Contents(w0) && name in volumes && volumes[name] == v
      modifies this`world, this`held, this`volumes, this`metadataFile, pipeline.registry, pipeline.nvram
      ensures Valid() && Stands(t, WriteCall(name, offset, data), Ended(r)) && Ran(w0, run, world)
      ensures || r == Ending(saveOk)
              || (r == Failed(StoreFailed) && !AlwaysStorable(pipeline.env, pipeline.keyVersion, Patch(VR.Contents(w0)[name], offset, data), devices))
              || (r in {Failed(VolumeNotFound), Failed(CapsuleGone), Failed(Conflict)} && VS.ChangedSince(world.log, name, at))
      ensures Alone(run, t) ==>
                r == if Storable(pipeline.env, old(pipeline.View()), pipeline.keyVersion, Patch(VR.Contents(w0)[name], offset, data), devices) then Ending(saveOk)
                     else Failed(StoreFailed)
    {
      hide VS.Inv, Backed, Legible, KeepsLegible, AllLegible, Room, Ran, Next, VR.Contents, VS.ChangedSince, Alone, Storable, AlwaysStorable, Patch;
      NamedCapsule(w0, world, name);
      run := Pause(t, cid, v.size, w0, run0);
      ghost var w := world;
      if v.cid !in w.store { VR.GoneMeansChanged(w, t); }
      CopyReads(w0, w, t);
      var copied := CopyAndPatch(v, at, name, offset, data, t);
      run := Extended(w0, run, w, Go(t, 0, true));
      if copied.Return? { return copied.reply, run; }
      run := Pause(t, cid, v.size, w0, run);
      w := world;
      StorableNow(pipeline.env, pipeline.View(), pipeline.keyVersion, copied.value, devices);
      var stored := StoreCopy(v, at, copied.value, name, offset, data, cid, devices, t);
      run := Extended(w0, run, w, Go(t, cid, stored.Continue?));
      if stored.Return? { return stored.reply, run; }
      r, run := FinishWrite(v, at, name, offset, data, cid, saveOk, t, w0, run);
    }

    method FinishWrite(v: Volume, ghost at: nat, name: Name, offset: nat, data: Bytes, cid: CapsuleId, saveOk: bool,
                       ghost t: Tid, ghost w0: World, ghost run0: seq<Action>)
      returns (r: Reply, ghost run: seq<Action>)
      requires Valid() && Stands(t, WriteCall(name, offset, data), Rewritten(v, at, cid)) && Ran(w0, run0, world)
      modifies this`world, this`held, this`volumes, this`metadataFile, pipeline.registry, pipeline.nvram
      ensures Valid() && Stands(t, WriteCall(name, offset, data), Ended(r)) && Ran(w0, run, world)
      ensures r == Ending(saveOk) || (r in {Failed(VolumeNotFound), Failed(Conflict)} && VS.ChangedSince(world.log, name, at))
      ensures Alone(run, t) ==> Alone(run0, t) && (name in old(volumes) && old(volumes)[name] == v ==> r == Ending(saveOk))
    {
      hide VS.Inv, Backed, Legible, KeepsLegible, AllLegible, Room, Ran, Next, VS.ChangedSince, Alone;
      ghost var call := WriteCall(name, offset, data);
      run := Pause(t, 0, 0, w0, run0);
      ghost var w := world;
      SwapDecides(w, t, name, v, at);
      var swapped := Swap(v, at, name, offset, data, cid, t);
      run := Extended(w0, run, w, Go(t, 0, true));
      if swapped.Return? { return swapped.reply, run; }
      if swapped.value {
        r, run := FinishChange(Some(v.cid), saveOk, call, t, w0, run);
        return;
      }
      run := Pause(t, 0, 0, w0, run);
      VR.ChangedStays(w.log, world.log, name, at);
      w := world;
      Discard(cid, call, t);
      run := Extended(w0, run, w, Go(t, 0, true));
      r := Failed(Conflict);
    }
  }

  method Overwrite(buffer: array<byte>, offset: nat, data: Bytes)
    requires offset + |data| <= buffer.Length
    modifies buffer
    ensures buffer[..] == Patch(old(buffer[..]), offset, data)
  {
    for i := 0 to |data|
      invariant buffer[..] == old(buffer[..])[..offset] + data[..i] + old(buffer[..])[offset + i..]
    {
      buffer[offset + i] := data[i];
    }
  }

  /** The action is one of call `t`. */
  predicate By(a: Action, t: Tid) { !a.Restart? && a.t == t }

  /** Nobody but `t` takes part in the run. */
  ghost predicate Alone(run: seq<Action>, t: Tid) { forall a :: a in run ==> By(a, t) }

  lemma NoOthers(run0: seq<Action>, others: seq<Action>, t: Tid)
    requires forall a :: a in others ==> !By(a, t)
    ensures Alone(run0 + others, t) ==> Alone(run0, t) && others == []
  {
    assert others != [] ==> others[0] in run0 + others;
  }

  /** `run` leads from `w0` to `w` without a restart. */
  ghost predicate Ran(w0: World, run: seq<Action>, w: World) {
    (forall i :: 0 <= i < |run| ==> !run[i].Restart?) && VR.Possible(w0, run) && VR.After(w0, run) == w
  }

  lemma Extended(w0: World, run: seq<Action>, w: World, a: Action) returns (run': seq<Action>)
    requires Ran(w0, run, w) && Enabled(w, a) && !a.Restart?
    ensures run' == run + [a] && Ran(w0, run', Next(w, a))
    ensures forall t :: Alone(run', t) <==> Alone(run, t) && By(a, t)
  {
    run' := run + [a];
    assert run'[..|run|] == run;
  }

  lemma {:induction false} Joined(w0: World, run: seq<Action>, w1: World, others: seq<Action>, w: World) returns (run': seq<Action>)
    requires Ran(w0, run, w1) && Ran(w1, others, w)
    ensures run' == run + others && Ran(w0, run', w)
    decreases |others|
  {
    run' := run + others;
    if others == [] {
      assert run' == run;
    } else {
      var n := |others| - 1;
      var before := Joined(w0, run, w1, others[..n], VR.After(w1, others[..n]));
      assert run'[..|run'| - 1] == before;
    }
  }

  /** What a call's reply says about the change it was to make. */
  lemma Answered(w: World, t: Tid)
    requires VS.Inv(w) && t in w.threads
    ensures w.threads[t].pc.Ended? ==> VS.ReplyOk(w, t, w.threads[t].pc.reply)
  {
    VR.InvThread(w, t);
  }

  /** How a call ends that has made its change. */
  function Ending(saveOk: bool): Reply { if saveOk then Done else Failed(PersistFailed) }

  /** A name that is new in the table was changed by somebody. */
  lemma NewNameChanged(w0: World, w: World, name: Name)
    requires VS.Inv(w0) && VS.Inv(w) && w0.log <= w.log && name !in w0.volumes && name in w.volumes
    ensures VS.ChangedSince(w.log, name, |w0.log|)
  {
    hide VS.Inv, VS.ChangedSince, VS.Replay;
    ReadsVolumes(w0);
    ReadsVolumes(w);
    assert w.log[..|w0.log|] == w0.log;
    if !VS.ChangedSince(w.log, name, |w0.log|) { VR.Untouched(w.log, name, |w0.log|); }
  }

  /** The table names a capsule that reads what the volume reads. */
  lemma NamedCapsule(w0: World, w: World, name: Name)
    requires VS.Inv(w0) && VS.Inv(w) && w0.log == w.log && name in VR.Contents(w0)
    ensures name in w.volumes && w.volumes[name].cid in w.store && w.store[w.volumes[name].cid] == VR.Contents(w0)[name]
  {
    hide VS.Inv, VS.Replay;
    ReadsVolumes(w0);
    ReadsVolumes(w);
  }

  /** What a writer copies is what its volume read when it looked, whatever has happened since. */
  lemma CopyReads(w0: World, w: World, t: Tid)
    requires VS.Inv(w0) && VS.Inv(w) && w0.log <= w.log && t in w.threads && w.threads[t].call.WriteCall?
    requires w.threads[t].pc.Looked? && w.threads[t].pc.at == |w0.log|
    ensures var name, cid := w.threads[t].call.name, w.threads[t].pc.v.cid;
            cid in w.store && name in VR.Contents(w0) ==> w.store[cid] == VR.Contents(w0)[name]
  {
    hide VS.Inv, VS.Replay, VR.Contents;
    VR.InvThread(w, t);
    ReadsVolumes(w0);
    assert w.log[..|w0.log|] == w0.log;
  }

  lemma SwapDecides(w: World, t: Tid, name: Name, v: Volume, at: nat)
    requires VS.Inv(w) && t in w.threads && w.threads[t].call.WriteCall? && w.threads[t].call.name == name
    requires w.threads[t].pc.Rewritten? && w.threads[t].pc.v == v && w.threads[t].pc.at == at
    ensures VS.ChangedSince(w.log, name, at) || (name in w.volumes && w.volumes[name] == v)
  {
    VR.InvThread(w, t);
    hide VS.Inv, VS.Replay, VS.ChangedSince;
  }

  lemma StorableNow(env: Env, st: S.Store, v: Option<nat>, data: Bytes, devices: nat -> Io)
    ensures AlwaysStorable(env, v, data, devices) ==> Storable(env, st, v, data, devices)
  {
    hide AlwaysStorable, Storable;
    if AlwaysStorable(env, v, data, devices) { AlwaysIsNow(env, st, v, data, devices); }
  }

  lemma UnusedFree(w: World, cid: CapsuleId)
    requires VS.Inv(w) && cid !in w.used
    ensures cid !in w.store
  {
    hide VS.Faithful, VS.Saving, VS.ThreadOk;
  }

  /** What the volumes read, from their records and from the log. */
  lemma ReadsVolumes(w: World)
    requires VS.Inv(w)
    ensures VR.Contents(w) == VS.Replay(w.log) && VR.Contents(w).Keys == w.volumes.Keys
    ensures forall n :: n in w.volumes ==> n in VR.Contents(w) && |VR.Contents(w)[n]| == w.volumes[n].size
  {
    VR.ContentsReplay(w);
    forall n | n in w.volumes ensures VS.VolumeOk(w.volumes[n], n, w.store, w.published, w.log) {
    }
  }

  lemma BackedReads(env: Env, st: S.Store, held: multiset<SegmentId>, store: map<CapsuleId, Bytes>, keys: bool, cid: CapsuleId)
    requires Backed(env, st, held, store, keys)
    ensures BytesWith(env, st, cid, keys) == if cid in store then Ok(store[cid]) else Err(CapsuleNotFound)
    ensures cid in st.reg.capsules <==> cid in store
    ensures cid in store ==> st.reg.capsules[cid].size == |store[cid]|
  {
    hide S.Inv, S.ReadSegments, ReadWith;
    if cid in store {
      KeysNeededIff(env, st, cid, keys);
    }
  }
}
