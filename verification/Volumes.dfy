/** The block volumes' optimistic protocol as a state machine: any number of calls in flight, interleaved at
    the points where the source takes or drops a lock or calls the pipeline. */
module Volumes {
  import opened Types

  type Name = string
  type Tid = nat

  const U64_MAX: nat := 0xFFFF_FFFF_FFFF_FFFF

  datatype Volume = Volume(size: nat, blockSize: nat, cid: CapsuleId, version: nat)

  datatype Call =
    | CreateCall(name: Name, size: nat, blockSize: nat)
    | DeleteCall(name: Name)
    | ReadCall(name: Name, offset: nat, len: nat)
    | WriteCall(name: Name, offset: nat, data: Bytes)

  datatype Failure =
    | BadName | BadSize | VolumeExists | VolumeNotFound | BeyondEnd
    | CapsuleGone | StoreFailed | Conflict | PersistFailed
    | Killed  // the process stopped during the call

  datatype Reply = Done | Got(bytes: Bytes) | Failed(why: Failure)

  /** How far a call has got. `v` is the snapshot of the volume it works from, and `at` how many changes had
      been committed when it was taken. */
  datatype Pc =
    | Called
    | Checked
    | Built(cid: CapsuleId)
    | Looked(v: Volume, at: nat)
    | Copied(v: Volume, at: nat, buffer: Bytes)
    | Rewritten(v: Volume, at: nat, cid: CapsuleId)
    | Applied(prior: Option<CapsuleId>)
    | Saved(due: CapsuleId)
    | Losing(cid: CapsuleId, why: Failure)
    | Ended(reply: Reply)

  datatype Thread = Thread(call: Call, pc: Pc)

  /** A change of the volume table. */
  datatype Event = Made(name: Name, size: nat) | Patched(name: Name, offset: nat, data: Bytes) | Gone(name: Name)

  datatype Owner = ByVolume(name: Name) | ByThread(t: Tid) | Nobody

  /** `store` is the abstract capsule store, `disk` the saved table. The other five are history: the ids ever
      issued, the ids ever named by the table, every change with the call that made it, how many of these
      `disk` has, and who is to delete each capsule. */
  datatype World = World(
    volumes: map<Name, Volume>,
    store: map<CapsuleId, Bytes>,
    threads: map<Tid, Thread>,
    disk: map<Name, Volume>,
    used: set<CapsuleId>,
    published: set<CapsuleId>,
    log: seq<(Tid, Event)>,
    savedAt: nat,
    owner: map<CapsuleId, Owner>)

  /** `cid` is the id drawn if the step writes a capsule; `ok` says whether its storage call succeeds. */
  datatype Action = Start(t: Tid, call: Call) | Go(t: Tid, cid: CapsuleId, ok: bool) | Restart

  // ---------------------------------------------------------------- the steps

  predicate NameOk(name: Name) {
    name != "" && forall i :: 0 <= i < |name| ==>
      var c := name[i]; 'a' <= c <= 'z' || 'A' <= c <= 'Z' || '0' <= c <= '9' || c == '-' || c == '_' || c == '.'
  }

  predicate SizeOk(size: nat, blockSize: nat) { size > 0 && blockSize > 0 && size % blockSize == 0 }

  function Zeros(n: nat): Bytes { seq(n, _ => 0 as byte) }

  /** Overwrite `buffer` from `offset` on; the callers have checked that `data` fits. */
  function Patch(buffer: Bytes, offset: nat, data: Bytes): Bytes {
    if offset + |data| <= |buffer| then buffer[..offset] + data + buffer[offset + |data|..] else buffer
  }

  function At(w: World, t: Tid, pc: Pc): World
    requires t in w.threads
  {
    w.(threads := w.threads[t := w.threads[t].(pc := pc)])
  }

  function Fail(w: World, t: Tid, why: Failure): World
    requires t in w.threads
  {
    At(w, t, Ended(Failed(why)))
  }

  /** The pipeline writes a new capsule. */
  function WithCapsule(w: World, t: Tid, cid: CapsuleId, data: Bytes): World {
    w.(store := w.store[cid := data], used := w.used + {cid}, owner := w.owner[cid := ByThread(t)])
  }

  function WithoutCapsule(w: World, cid: CapsuleId): World {
    w.(store := w.store - {cid}, owner := w.owner - {cid})
  }

  /** The table's entry for `name` becomes `v`; the capsule it named, if any, passes to the caller. */
  function WithVolume(w: World, t: Tid, name: Name, v: Volume, e: Event): World {
    var freed := if name in w.volumes then w.owner[w.volumes[name].cid := ByThread(t)] else w.owner;
    w.(volumes := w.volumes[name := v], published := w.published + {v.cid}, log := w.log + [(t, e)],
       owner := freed[v.cid := ByVolume(name)])
  }

  function WithoutVolume(w: World, t: Tid, name: Name): World
    requires name in w.volumes
  {
    w.(volumes := w.volumes - {name}, log := w.log + [(t, Gone(name))], owner := w.owner[w.volumes[name].cid := ByThread(t)])
  }

  function WithSave(w: World): World { w.(disk := w.volumes, savedAt := |w.log|) }

  function Abandon(w: World, cid: CapsuleId): World { w.(owner := w.owner[cid := Nobody]) }

  function StepCreate(w: World, t: Tid, cid: CapsuleId, ok: bool): (r: World)
    requires t in w.threads && w.threads[t].call.CreateCall?
    ensures t in r.threads
  {
    var c := w.threads[t].call;
    match w.threads[t].pc
    case Called =>
      if !NameOk(c.name) then Fail(w, t, BadName)
      else if !SizeOk(c.size, c.blockSize) then Fail(w, t, BadSize)
      else if c.name in w.volumes then Fail(w, t, VolumeExists)
      else At(w, t, Checked)
    case Checked =>
      if ok then At(WithCapsule(w, t, cid, Zeros(c.size)), t, Built(cid)) else Fail(w, t, StoreFailed)
    case Built(mine) =>
      if c.name in w.volumes then At(w, t, Losing(mine, VolumeExists))
      else At(WithVolume(w, t, c.name, Volume(c.size, c.blockSize, mine, 1), Made(c.name, c.size)), t, Applied(None))
    case _ => StepEnd(w, t, ok)
  }

  function StepDelete(w: World, t: Tid, ok: bool): (r: World)
    requires t in w.threads && w.threads[t].call.DeleteCall?
    ensures t in r.threads
  {
    var c := w.threads[t].call;
    match w.threads[t].pc
    case Called =>
      if c.name !in w.volumes then Fail(w, t, VolumeNotFound)
      else At(WithoutVolume(w, t, c.name), t, Applied(Some(w.volumes[c.name].cid)))
    case _ => StepEnd(w, t, ok)
  }

  function StepRead(w: World, t: Tid): (r: World)
    requires t in w.threads && w.threads[t].call.ReadCall?
    ensures t in r.threads
  {
    var c := w.threads[t].call;
    match w.threads[t].pc
    case Called =>
      if c.name !in w.volumes then Fail(w, t, VolumeNotFound)
      else if c.offset + c.len > w.volumes[c.name].size then Fail(w, t, BeyondEnd)
      else At(w, t, Looked(w.volumes[c.name], |w.log|))
    case Looked(v, _) =>
      if v.cid !in w.store then Fail(w, t, CapsuleGone)
      else if c.offset + c.len > |w.store[v.cid]| then Fail(w, t, BeyondEnd)
      else At(w, t, Ended(Got(w.store[v.cid][c.offset..c.offset + c.len])))
    case _ => w
  }

  function StepWrite(w: World, t: Tid, cid: CapsuleId, ok: bool): (r: World)
    requires t in w.threads && w.threads[t].call.WriteCall?
    ensures t in r.threads
  {
    var c := w.threads[t].call;
    match w.threads[t].pc
    case Called =>
      if c.data == [] then At(w, t, Ended(Done))
      else if c.name !in w.volumes then Fail(w, t, VolumeNotFound)
      else if c.offset + |c.data| > w.volumes[c.name].size then Fail(w, t, BeyondEnd)
      else At(w, t, Looked(w.volumes[c.name], |w.log|))
    case Looked(v, at) =>
      if v.cid !in w.store then Fail(w, t, CapsuleGone)
      else At(w, t, Copied(v, at, Patch(w.store[v.cid], c.offset, c.data)))
    case Copied(v, at, buffer) =>
      if ok then At(WithCapsule(w, t, cid, buffer), t, Rewritten(v, at, cid)) else Fail(w, t, StoreFailed)
    case Rewritten(v, _, mine) =>
      if c.name !in w.volumes then Fail(Abandon(w, mine), t, VolumeNotFound)
      else
        var now := w.volumes[c.name];
        if now.version != v.version || now.cid != v.cid then At(w, t, Losing(mine, Conflict))
        else
          var v' := now.(cid := mine, version := if now.version < U64_MAX then now.version + 1 else now.version);
          At(WithVolume(w, t, c.name, v', Patched(c.name, c.offset, c.data)), t, Applied(Some(v.cid)))
    case _ => StepEnd(w, t, ok)
  }

  /** Save the table, then delete the superseded capsule; or delete the capsule that lost its race. */
  function StepEnd(w: World, t: Tid, ok: bool): (r: World)
    requires t in w.threads
    ensures t in r.threads
  {
    match w.threads[t].pc
    case Applied(None) => if ok then At(WithSave(w), t, Ended(Done)) else Fail(w, t, PersistFailed)
    case Applied(Some(c)) => if ok then At(WithSave(w), t, Saved(c)) else Fail(Abandon(w, c), t, PersistFailed)
    case Saved(c) => At(WithoutCapsule(w, c), t, Ended(Done))
    case Losing(mine, why) => Fail(WithoutCapsule(w, mine), t, why)
    case _ => w
  }

  /** The process stops and the view is opened again from its saved table. */
  ghost function Reopened(w: World): World {
    w.(volumes := w.disk, log := if w.savedAt <= |w.log| then w.log[..w.savedAt] else w.log,
       threads := map t | t in w.threads ::
         if w.threads[t].pc.Ended? then w.threads[t] else w.threads[t].(pc := Ended(Failed(Killed))),
       owner := map c | c in w.store :: OwnerOnDisk(w.disk, c))
  }

  ghost function OwnerOnDisk(disk: map<Name, Volume>, c: CapsuleId): Owner {
    if exists n :: n in disk && disk[n].cid == c then
      var n :| n in disk && disk[n].cid == c;
      ByVolume(n)
    else Nobody
  }

  /** The next step writes a capsule; ids are never issued twice. */
  predicate Draws(pc: Pc) { pc.Checked? || pc.Copied? }

  predicate Enabled(w: World, a: Action) {
    match a
    case Start(t, _) => t !in w.threads
    case Go(t, cid, _) => t in w.threads && !w.threads[t].pc.Ended? && (Draws(w.threads[t].pc) ==> cid !in w.used)
    case Restart => true
  }

  ghost function Next(w: World, a: Action): World
    requires Enabled(w, a)
  {
    match a
    case Start(t, call) => w.(threads := w.threads[t := Thread(call, Called)])
    case Go(t, cid, ok) =>
      (match w.threads[t].call
       case CreateCall(_, _, _) => StepCreate(w, t, cid, ok)
       case DeleteCall(_) => StepDelete(w, t, ok)
       case ReadCall(_, _, _) => StepRead(w, t)
       case WriteCall(_, _, _) => StepWrite(w, t, cid, ok))
    case Restart => Reopened(w)
  }
}
