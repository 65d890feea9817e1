/** What every interleaving of volume calls keeps. */
module VolumeSafety {
  import opened Types
  import opened Volumes

  // ---------------------------------------------------------------- the atomic specification

  function Apply(m: map<Name, Bytes>, e: Event): map<Name, Bytes> {
    match e
    case Made(n, size) => m[n := Zeros(size)]
    case Patched(n, offset, data) => if n in m then m[n := Patch(m[n], offset, data)] else m
    case Gone(n) => m - {n}
  }

  /** The volumes' contents if the committed changes happened one after the other. */
  function Replay(log: seq<(Tid, Event)>): map<Name, Bytes> {
    if log == [] then map[] else Apply(Replay(log[..|log| - 1]), log[|log| - 1].1)
  }

  /** How often `n` has been overwritten since it was made. */
  function Writes(log: seq<(Tid, Event)>, n: Name): nat {
    if log == [] then 0
    else
      WritesWith(Writes(log[..|log| - 1], n), n, log[|log| - 1].1)
  }

  function WritesWith(before: nat, n: Name, e: Event): nat {
    if e.name != n then before else if e.Patched? then before + 1 else 0
  }

  function VersionAfter(writes: nat): nat { Min(writes + 1, U64_MAX) }

  /** The change that a call makes if it succeeds. */
  function Effect(c: Call): Option<Event> {
    match c
    case CreateCall(n, size, _) => Some(Made(n, size))
    case DeleteCall(n) => Some(Gone(n))
    case ReadCall(_, _, _) => None
    case WriteCall(n, offset, data) => if data == [] then None else Some(Patched(n, offset, data))
  }

  // ---------------------------------------------------------------- the invariant

  /** The capsule that a call has to hand over or delete. */
  function Holds(pc: Pc): Option<CapsuleId> {
    match pc
    case Built(c) => Some(c)
    case Rewritten(_, _, c) => Some(c)
    case Applied(c) => c
    case Saved(c) => Some(c)
    case Losing(c, _) => Some(c)
    case _ => None
  }

  /** A capsule that the table has never named. */
  function Private(pc: Pc): Option<CapsuleId> {
    match pc
    case Built(c) => Some(c)
    case Rewritten(_, _, c) => Some(c)
    case Losing(c, _) => Some(c)
    case _ => None
  }

  /** `table` names live capsules of its volumes' sizes, and reads as the changes in `log` say. */
  predicate Faithful(table: map<Name, Volume>, store: map<CapsuleId, Bytes>, published: set<CapsuleId>, log: seq<(Tid, Event)>) {
    && table.Keys == Replay(log).Keys
    && (forall n :: n in table ==> VolumeOk(table[n], n, store, published, log))
    && (forall n, m :: n in table && m in table && n != m ==> table[n].cid != table[m].cid)
  }

  predicate VolumeOk(v: Volume, n: Name, store: map<CapsuleId, Bytes>, published: set<CapsuleId>, log: seq<(Tid, Event)>) {
    && v.cid in published && v.cid in store && |store[v.cid]| == v.size && SizeOk(v.size, v.blockSize)
    && n in Replay(log) && store[v.cid] == Replay(log)[n]
    && v.version == VersionAfter(Writes(log, n))
  }

  /** Every capsule has the owner that the table and the calls say, and no other. */
  predicate Owned(w: World) {
    && w.owner.Keys == w.store.Keys && w.store.Keys <= w.used && w.published <= w.used
    && (forall n :: n in w.volumes ==> w.volumes[n].cid in w.owner && w.owner[w.volumes[n].cid] == ByVolume(n))
    && (forall c :: c in w.owner && w.owner[c].ByVolume? ==> w.owner[c].name in w.volumes && w.volumes[w.owner[c].name].cid == c)
    && (forall t :: t in w.threads ==> HoldsOk(w, t))
    && (forall c :: c in w.owner && w.owner[c].ByThread? ==>
          w.owner[c].t in w.threads && Holds(w.threads[w.owner[c].t].pc) == Some(c))
  }

  predicate HoldsOk(w: World, t: Tid)
    requires t in w.threads
  {
    var pc := w.threads[t].pc;
    && (Holds(pc).Some? ==> Holds(pc).value in w.owner && w.owner[Holds(pc).value] == ByThread(t))
    && (Private(pc).Some? ==> Private(pc).value !in w.published)
    && (pc.Saved? ==> forall n :: n in w.disk ==> w.disk[n].cid != pc.due)
  }

  predicate Never(log: seq<(Tid, Event)>, t: Tid) { forall i :: 0 <= i < |log| ==> log[i].0 != t }

  /** Call `t` made change `e` and no other. */
  ghost predicate Once(log: seq<(Tid, Event)>, t: Tid, e: Event) {
    exists i :: OnlyAt(log, t, e, i)
  }

  predicate OnlyAt(log: seq<(Tid, Event)>, t: Tid, e: Event, i: int) {
    0 <= i < |log| && log[i] == (t, e) && forall j :: 0 <= j < |log| && j != i ==> log[j].0 != t
  }

  /** Somebody changed `n` after the first `at` changes. */
  ghost predicate ChangedSince(log: seq<(Tid, Event)>, n: Name, at: nat) {
    exists i :: at <= i < |log| && log[i].1.name == n
  }

  /** A snapshot `v` of volume `n`: its capsule, while it lives, reads what the volume read then; the table
      still has exactly `v` as long as it names that capsule; and otherwise somebody else got in between. */
  ghost predicate SnapshotOk(w: World, n: Name, v: Volume, at: nat) {
    && at <= |w.log| && v.cid in w.published
    && n in Replay(w.log[..at]) && |Replay(w.log[..at])[n]| == v.size && SizeOk(v.size, v.blockSize)
    && (v.cid in w.store ==> w.store[v.cid] == Replay(w.log[..at])[n])
    && (if n in w.volumes && w.volumes[n].cid == v.cid then w.volumes[n] == v && !ChangedSince(w.log, n, at)
        else ChangedSince(w.log, n, at))
  }

  ghost predicate ThreadOk(w: World, t: Tid)
    requires t in w.threads
  {
    var c := w.threads[t].call;
    match w.threads[t].pc
    case Called => Never(w.log, t)
    case Checked => c.CreateCall? && SizeOk(c.size, c.blockSize) && Never(w.log, t)
    case Built(mine) => c.CreateCall? && SizeOk(c.size, c.blockSize) && Never(w.log, t) && mine in w.store && w.store[mine] == Zeros(c.size)
    case Looked(v, at) =>
      && Never(w.log, t) && SnapshotOk(w, c.name, v, at)
      && ((c.ReadCall? && c.offset + c.len <= v.size) || (c.WriteCall? && c.data != [] && c.offset + |c.data| <= v.size))
    case Copied(v, at, buffer) =>
      && Never(w.log, t) && SnapshotOk(w, c.name, v, at) && c.WriteCall? && c.data != [] && c.offset + |c.data| <= v.size
      && buffer == Patch(Replay(w.log[..at])[c.name], c.offset, c.data)
    case Rewritten(v, at, mine) =>
      && Never(w.log, t) && SnapshotOk(w, c.name, v, at) && c.WriteCall? && c.data != [] && c.offset + |c.data| <= v.size
      && mine in w.store && w.store[mine] == Patch(Replay(w.log[..at])[c.name], c.offset, c.data)
    case Applied(_) => Effect(c).Some? && Once(w.log, t, Effect(c).value)
    case Saved(_) => Effect(c).Some? && SavedOnce(w, t, Effect(c).value)
    case Losing(_, why) => Never(w.log, t) && why != PersistFailed && why != Killed
    case Ended(reply) => ReplyOk(w, t, reply)
  }

  /** The change is in the table and in the saved table. */
  ghost predicate SavedOnce(w: World, t: Tid, e: Event) {
    w.savedAt <= |w.log| && Once(w.log, t, e) && Once(w.log[..w.savedAt], t, e)
  }

  /** Success means that the change was made once and is saved; an error that it was not made, unless it
      could not be saved or the process stopped. */
  ghost predicate ReplyOk(w: World, t: Tid, reply: Reply)
    requires t in w.threads
  {
    match reply
    case Done => if Effect(w.threads[t].call).Some? then SavedOnce(w, t, Effect(w.threads[t].call).value) else Never(w.log, t)
    case Got(_) => Never(w.log, t)
    case Failed(why) => why == PersistFailed || why == Killed || Never(w.log, t)
  }

  predicate Saving(w: World) {
    w.savedAt <= |w.log| && Faithful(w.disk, w.store, w.published, w.log[..w.savedAt])
  }

  /** Every change was made by a call. */
  predicate Known(w: World) { forall i :: 0 <= i < |w.log| ==> w.log[i].0 in w.threads }

  ghost predicate Inv(w: World) {
    && Faithful(w.volumes, w.store, w.published, w.log)
    && Owned(w)
    && Saving(w)
    && Known(w)
    && forall t :: t in w.threads ==> ThreadOk(w, t)
  }

  // ---------------------------------------------------------------- the log grows

  lemma ReplayMore(log: seq<(Tid, Event)>, x: (Tid, Event))
    ensures Replay(log + [x]) == Apply(Replay(log), x.1)
    ensures forall n :: Writes(log + [x], n) == WritesWith(Writes(log, n), n, x.1)
    ensures forall i :: 0 <= i <= |log| ==> (log + [x])[..i] == log[..i]
  {
    assert (log + [x])[..|log|] == log;
  }

  lemma OnceMore(log: seq<(Tid, Event)>, x: (Tid, Event), t: Tid, e: Event)
    ensures Once(log, t, e) && x.0 != t ==> Once(log + [x], t, e)
    ensures Never(log, t) && x == (t, e) ==> Once(log + [x], t, e)
    ensures Never(log, t) && x.0 != t ==> Never(log + [x], t)
  {
    if Once(log, t, e) && x.0 != t {
      var i :| OnlyAt(log, t, e, i);
      assert OnlyAt(log + [x], t, e, i);
    }
    if Never(log, t) && x == (t, e) {
      assert OnlyAt(log + [x], t, e, |log|);
    }
  }

  lemma ChangedMore(log: seq<(Tid, Event)>, x: (Tid, Event), n: Name, at: nat)
    requires at <= |log|
    ensures ChangedSince(log + [x], n, at) <==> ChangedSince(log, n, at) || x.1.name == n
  {
    if ChangedSince(log, n, at) {
      var i :| at <= i < |log| && log[i].1.name == n;
      assert (log + [x])[i].1.name == n;
    }
    if x.1.name == n {
      assert (log + [x])[|log|].1.name == n;
    }
  }

  // ---------------------------------------------------------------- what a step does to the other calls

  /** `w'` may have another table, more changes by `t`, and another store, but the same capsules where both
      have one, and new ids only for capsules that the table did not name. */
  predicate Evolves(w: World, w': World, t: Tid) {
    && (w'.log == w.log || (|w'.log| == |w.log| + 1 && w'.log[..|w.log|] == w.log && w'.log[|w.log|].0 == t))
    && (forall c :: c in w'.store && c in w.published ==> c in w.store && w'.store[c] == w.store[c])
    && w.published <= w'.published
    && (w'.savedAt == w.savedAt || w'.savedAt == |w'.log|) && w.savedAt <= |w.log|
    && (forall n, c :: n in w'.volumes && w'.volumes[n].cid == c && c in w.published ==> n in w.volumes && w'.volumes[n] == w.volumes[n])
    && (forall n :: n in w.volumes && !(n in w'.volumes && w'.volumes[n] == w.volumes[n]) ==>
          |w'.log| == |w.log| + 1 && w'.log[|w.log|].1.name == n)
    && (|w'.log| > |w.log| && w'.log[|w.log|].1.name in w'.volumes ==>
          w'.volumes[w'.log[|w.log|].1.name].cid !in w.published)
  }

  lemma SnapshotStays(w: World, w': World, t: Tid, n: Name, v: Volume, at: nat)
    requires Evolves(w, w', t) && SnapshotOk(w, n, v, at)
    ensures SnapshotOk(w', n, v, at) && Replay(w'.log[..at]) == Replay(w.log[..at])
  {
    hide SizeOk, Replay;
    if w'.log != w.log {
      var x := w'.log[|w.log|];
      assert w'.log == w.log + [x];
      assert w'.log[..at] == w.log[..at];
      ChangedMore(w.log, x, n, at);
    }
  }

  lemma OnceStays(w: World, w': World, t: Tid, u: Tid, e: Event)
    requires Evolves(w, w', t) && u != t
    ensures Never(w.log, u) ==> Never(w'.log, u)
    ensures Once(w.log, u, e) ==> Once(w'.log, u, e)
    ensures SavedOnce(w, u, e) ==> SavedOnce(w', u, e)
  {
    if w'.log != w.log {
      var x := w'.log[|w.log|];
      assert w'.log == w.log + [x];
      OnceMore(w.log, x, u, e);
      assert w'.log[..w.savedAt] == w.log[..w.savedAt];
    }
    assert w'.log[..|w'.log|] == w'.log;
  }

  /** What is true of a call stays true under the steps of the others. */
  lemma ThreadStays(w: World, w': World, t: Tid, u: Tid)
    requires Evolves(w, w', t) && u != t && u in w.threads && u in w'.threads && w'.threads[u] == w.threads[u]
    requires ThreadOk(w, u)
    requires Private(w.threads[u].pc).Some? && Private(w.threads[u].pc).value in w.store ==>
      Private(w.threads[u].pc).value in w'.store && w'.store[Private(w.threads[u].pc).value] == w.store[Private(w.threads[u].pc).value]
    ensures ThreadOk(w', u)
  {
    hide SizeOk, Replay, Evolves, SnapshotOk, Never, Once, SavedOnce;
    var c, pc := w.threads[u].call, w.threads[u].pc;
    var e := if Effect(c).Some? then Effect(c).value else Gone("");
    OnceStays(w, w', t, u, e);
    if pc.Looked? || pc.Copied? || pc.Rewritten? {
      SnapshotStays(w, w', t, c.name, pc.v, pc.at);
    }
  }

  /** A step of call `t` that keeps the table, the owners and the saved table in order keeps the invariant. */
  lemma StepKeeps(w: World, w': World, t: Tid)
    requires Inv(w) && t in w.threads && Evolves(w, w', t)
    requires w'.threads.Keys == w.threads.Keys && forall u :: u in w.threads && u != t ==> w'.threads[u] == w.threads[u]
    requires Faithful(w'.volumes, w'.store, w'.published, w'.log) && Owned(w') && Saving(w') && ThreadOk(w', t)
    requires forall c :: c in w.store && c in w'.store ==> w'.store[c] == w.store[c]
    ensures Inv(w')
  {
    hide Evolves, Faithful, Saving, Holds, Private, Known;
    KnownStays(w, w', t);
    forall u | u in w'.threads ensures ThreadOk(w', u) {
      if u != t {
        PrivateHeld(w'.threads[u].pc);
        assert HoldsOk(w, u) && HoldsOk(w', u);
        hide ThreadOk;
        ThreadStays(w, w', t, u);
      }
    }
  }

  lemma KnownStays(w: World, w': World, t: Tid)
    requires Known(w) && Evolves(w, w', t) && t in w.threads && w'.threads.Keys == w.threads.Keys
    ensures Known(w')
  {
    forall i | 0 <= i < |w'.log| ensures w'.log[i].0 in w'.threads {
      if i < |w.log| { assert w'.log[i] == w.log[i] by { assert w'.log[..|w.log|][i] == w'.log[i]; } }
    }
  }

  lemma PrivateHeld(pc: Pc)
    ensures Private(pc).Some? ==> Holds(pc) == Private(pc)
  {
  }

  /** A table stays faithful while its capsules stay. */
  lemma FaithfulStays(table: map<Name, Volume>, store: map<CapsuleId, Bytes>, store': map<CapsuleId, Bytes>,
                      published: set<CapsuleId>, published': set<CapsuleId>, log: seq<(Tid, Event)>)
    requires Faithful(table, store, published, log) && published <= published'
    requires forall n :: n in table && table[n].cid in store ==>
      table[n].cid in store' && store'[table[n].cid] == store[table[n].cid]
    ensures Faithful(table, store', published', log)
  {
    hide SizeOk, Replay, Writes;
  }

  /** The table and the saved table do not name a capsule that a call is to delete or hand over. */
  lemma HeldApart(w: World, t: Tid)
    requires Inv(w) && t in w.threads && Holds(w.threads[t].pc).Some?
    ensures var c := Holds(w.threads[t].pc).value;
            && c in w.store && c in w.owner && w.owner[c] == ByThread(t)
            && (forall n :: n in w.volumes ==> w.volumes[n].cid != c)
            && (w.threads[t].pc.Saved? || w.threads[t].pc.Losing? ==> forall n :: n in w.disk ==> w.disk[n].cid != c)
  {
    hide SizeOk, Replay, Writes, ThreadOk;
    assert HoldsOk(w, t);
  }

  /** Only the call moves on. */
  lemma MoveKeeps(w: World, t: Tid, pc: Pc)
    requires Inv(w) && t in w.threads && ThreadOk(At(w, t, pc), t)
    requires Holds(pc) == Holds(w.threads[t].pc) && (Private(pc).Some? ==> Private(pc) == Private(w.threads[t].pc)) && !pc.Saved?
    ensures Inv(At(w, t, pc))
  {
    hide Faithful, ThreadOk, Holds, Private;
    var w' := At(w, t, pc);
    assert HoldsOk(w, t);
    forall u | u in w'.threads ensures HoldsOk(w', u) { assert u != t ==> HoldsOk(w, u); }
    StepKeeps(w, w', t);
  }

  lemma WriteCapsuleKeeps(w: World, t: Tid, cid: CapsuleId, data: Bytes, pc: Pc)
    requires Inv(w) && t in w.threads && cid !in w.used && Holds(w.threads[t].pc) == None
    requires Holds(pc) == Some(cid) && !pc.Saved? && ThreadOk(At(WithCapsule(w, t, cid, data), t, pc), t)
    ensures Inv(At(WithCapsule(w, t, cid, data), t, pc))
  {
    hide ThreadOk, Holds, Private, SizeOk, Replay, Writes, Faithful;
    var w' := At(WithCapsule(w, t, cid, data), t, pc);
    FaithfulStays(w.volumes, w.store, w'.store, w.published, w.published, w.log);
    FaithfulStays(w.disk, w.store, w'.store, w.published, w.published, w.log[..w.savedAt]);
    OwnedAfterWrite(w, t, cid, data, pc);
    StepKeeps(w, w', t);
  }

  lemma OwnedAfterWrite(w: World, t: Tid, cid: CapsuleId, data: Bytes, pc: Pc)
    requires Owned(w) && t in w.threads && cid !in w.used && Holds(w.threads[t].pc) == None
    requires Holds(pc) == Some(cid) && !pc.Saved?
    ensures Owned(At(WithCapsule(w, t, cid, data), t, pc))
  {
    hide Holds, Private;
    var w' := At(WithCapsule(w, t, cid, data), t, pc);
    PrivateHeld(pc);
    forall u | u in w'.threads ensures HoldsOk(w', u) { assert HoldsOk(w, u); }
  }

  lemma DeleteCapsuleKeeps(w: World, t: Tid, cid: CapsuleId, pc: Pc)
    requires Inv(w) && t in w.threads && (w.threads[t].pc.Saved? || w.threads[t].pc.Losing?) && Holds(w.threads[t].pc) == Some(cid)
    requires Holds(pc) == None && !pc.Saved? && ThreadOk(At(WithoutCapsule(w, cid), t, pc), t)
    ensures Inv(At(WithoutCapsule(w, cid), t, pc))
  {
    hide ThreadOk, Holds, Private, SizeOk, Replay, Writes, Faithful;
    var w' := At(WithoutCapsule(w, cid), t, pc);
    HeldApart(w, t);
    FaithfulStays(w.volumes, w.store, w'.store, w.published, w.published, w.log);
    FaithfulStays(w.disk, w.store, w'.store, w.published, w.published, w.log[..w.savedAt]);
    OwnedAfterDelete(w, t, cid, pc);
    StepKeeps(w, w', t);
  }

  lemma OwnedAfterDelete(w: World, t: Tid, cid: CapsuleId, pc: Pc)
    requires Owned(w) && t in w.threads && Holds(w.threads[t].pc) == Some(cid) && Holds(pc) == None && !pc.Saved?
    ensures Owned(At(WithoutCapsule(w, cid), t, pc))
  {
    hide Holds, Private;
    var w' := At(WithoutCapsule(w, cid), t, pc);
    assert HoldsOk(w, t);
    PrivateHeld(pc);
    forall u | u in w'.threads ensures HoldsOk(w', u) { assert HoldsOk(w, u); }
  }

  lemma AbandonKeeps(w: World, t: Tid, cid: CapsuleId, why: Failure)
    requires Inv(w) && t in w.threads && Holds(w.threads[t].pc) == Some(cid) && (why == PersistFailed || Never(w.log, t))
    ensures Inv(Fail(Abandon(w, cid), t, why))
  {
    hide ThreadOk, Holds, Private, SizeOk, Replay, Writes, Faithful;
    var w' := Fail(Abandon(w, cid), t, why);
    HeldApart(w, t);
    OwnedAfterAbandon(w, t, cid, why);
    FailedOk(w', t, why);
    StepKeeps(w, w', t);
  }

  lemma FailedOk(w: World, t: Tid, why: Failure)
    requires t in w.threads && w.threads[t].pc == Ended(Failed(why)) && (why == PersistFailed || why == Killed || Never(w.log, t))
    ensures ThreadOk(w, t)
  {
  }

  lemma OwnedAfterAbandon(w: World, t: Tid, cid: CapsuleId, why: Failure)
    requires Owned(w) && t in w.threads && Holds(w.threads[t].pc) == Some(cid)
    ensures Owned(Fail(Abandon(w, cid), t, why))
  {
    hide Private;
    var w' := Fail(Abandon(w, cid), t, why);
    PrivateHeld(w'.threads[t].pc);
    assert HoldsOk(w, t);
    forall u | u in w'.threads ensures HoldsOk(w', u) { assert HoldsOk(w, u); }
  }

  /** Saving the table before the superseded capsule goes. */
  lemma SaveKeeps(w: World, t: Tid, pc: Pc)
    requires Inv(w) && t in w.threads && Holds(w.threads[t].pc) == Holds(pc) && Private(pc) == None
    requires pc.Saved? ==> Holds(pc) == Some(pc.due)
    requires ThreadOk(At(WithSave(w), t, pc), t)
    ensures Inv(At(WithSave(w), t, pc))
  {
    hide ThreadOk, Holds, Private, SizeOk, Replay, Writes, Faithful;
    var w' := At(WithSave(w), t, pc);
    assert w.log[..|w.log|] == w.log;
    assert HoldsOk(w, t);
    forall u | u in w'.threads ensures HoldsOk(w', u) {
      assert HoldsOk(w, u);
      if w'.threads[u].pc.Saved? { SavedHolds(w'.threads[u].pc); }
    }
    StepKeeps(w, w', t);
  }

  lemma SavedHolds(pc: Pc)
    requires pc.Saved?
    ensures Holds(pc) == Some(pc.due)
  {
  }

  // ---------------------------------------------------------------- changing the table

  /** `n`'s entry is replaced, or added. */
  lemma FaithfulAfterSet(w: World, t: Tid, n: Name, v: Volume, e: Event)
    requires Faithful(w.volumes, w.store, w.published, w.log) && e.name == n && !e.Gone?
    requires v.cid in w.store && |w.store[v.cid]| == v.size && SizeOk(v.size, v.blockSize) && forall m :: m in w.volumes ==> w.volumes[m].cid != v.cid
    requires e.Patched? ==> n in w.volumes
    requires Apply(Replay(w.log), e) == Replay(w.log)[n := w.store[v.cid]]
    requires v.version == VersionAfter(WritesWith(Writes(w.log, n), n, e))
    ensures var w' := WithVolume(w, t, n, v, e); Faithful(w'.volumes, w'.store, w'.published, w'.log)
  {
    ReplayMore(w.log, (t, e));
    hide SizeOk, Replay, Writes;
    var w' := WithVolume(w, t, n, v, e);
    forall m | m in w'.volumes ensures VolumeOk(w'.volumes[m], m, w'.store, w'.published, w'.log) {
      if m != n { assert VolumeOk(w.volumes[m], m, w.store, w.published, w.log); }
    }
  }

  lemma FaithfulAfterRemove(w: World, t: Tid, n: Name)
    requires Faithful(w.volumes, w.store, w.published, w.log) && n in w.volumes
    ensures var w' := WithoutVolume(w, t, n); Faithful(w'.volumes, w'.store, w'.published, w'.log)
  {
    ReplayMore(w.log, (t, Gone(n)));
    hide SizeOk, Replay, Writes;
    var w' := WithoutVolume(w, t, n);
    forall m | m in w'.volumes ensures VolumeOk(w'.volumes[m], m, w'.store, w'.published, w'.log) {
      assert VolumeOk(w.volumes[m], m, w.store, w.published, w.log);
    }
  }

  lemma OwnedAfterSet(w: World, t: Tid, n: Name, v: Volume, e: Event)
    requires Owned(w) && t in w.threads && Holds(w.threads[t].pc) == Some(v.cid)
    ensures var prior := if n in w.volumes then Some(w.volumes[n].cid) else None;
            Owned(At(WithVolume(w, t, n, v, e), t, Applied(prior)))
  {
    hide Holds, Private, HoldsOk;
    var prior := if n in w.volumes then Some(w.volumes[n].cid) else None;
    var w' := At(WithVolume(w, t, n, v, e), t, Applied(prior));
    AppliedHolds(prior);
    HeldByOwner(w, t);
    forall u | u in w'.threads ensures HoldsOk(w', u) {
      HoldsAfterSet(w, t, n, v, e, prior, u);
    }
  }

  lemma HeldByOwner(w: World, t: Tid)
    requires t in w.threads && HoldsOk(w, t) && Holds(w.threads[t].pc).Some?
    ensures Holds(w.threads[t].pc).value in w.owner && w.owner[Holds(w.threads[t].pc).value] == ByThread(t)
  {
  }

  lemma HoldsAfterSet(w: World, t: Tid, n: Name, v: Volume, e: Event, prior: Option<CapsuleId>, u: Tid)
    requires t in w.threads && u in w.threads && HoldsOk(w, t) && HoldsOk(w, u) && Holds(w.threads[t].pc) == Some(v.cid)
    requires prior == if n in w.volumes then Some(w.volumes[n].cid) else None
    requires n in w.volumes ==> w.volumes[n].cid in w.owner && w.owner[w.volumes[n].cid] == ByVolume(n)
    ensures HoldsOk(At(WithVolume(w, t, n, v, e), t, Applied(prior)), u)
  {
    hide Holds, Private;
    AppliedHolds(prior);
    PrivateHeld(w.threads[u].pc);
  }

  lemma AppliedHolds(prior: Option<CapsuleId>)
    ensures Holds(Applied(prior)) == prior && Private(Applied(prior)) == None
  {
  }

  lemma OwnedAfterRemove(w: World, t: Tid, n: Name)
    requires Owned(w) && t in w.threads && n in w.volumes && Holds(w.threads[t].pc) == None
    ensures Owned(At(WithoutVolume(w, t, n), t, Applied(Some(w.volumes[n].cid))))
  {
    var w' := At(WithoutVolume(w, t, n), t, Applied(Some(w.volumes[n].cid)));
    forall u | u in w'.threads ensures HoldsOk(w', u) { assert HoldsOk(w, u); }
  }

  // ---------------------------------------------------------------- every step keeps the invariant

  lemma AppliedOk(w: World, w': World, t: Tid, e: Event)
    requires t in w.threads && t in w'.threads && Never(w.log, t) && w'.log == w.log + [(t, e)]
    requires Effect(w'.threads[t].call) == Some(e) && w'.threads[t].pc.Applied?
    ensures ThreadOk(w', t)
  {
    OnceMore(w.log, (t, e), t, e);
  }

  /** Taking the lock to insert a new volume, or to swap in the rewritten capsule. */
  lemma SetKeeps(w: World, t: Tid, n: Name, v: Volume, e: Event)
    requires Inv(w) && t in w.threads && Holds(w.threads[t].pc) == Some(v.cid) && Private(w.threads[t].pc) == Some(v.cid)
    requires Never(w.log, t) && Effect(w.threads[t].call) == Some(e) && e.name == n && !e.Gone?
    requires v.cid in w.store && |w.store[v.cid]| == v.size && SizeOk(v.size, v.blockSize)
    requires e.Patched? ==> n in w.volumes
    requires Apply(Replay(w.log), e) == Replay(w.log)[n := w.store[v.cid]]
    requires v.version == VersionAfter(WritesWith(Writes(w.log, n), n, e))
    ensures var prior := if n in w.volumes then Some(w.volumes[n].cid) else None;
            Inv(At(WithVolume(w, t, n, v, e), t, Applied(prior)))
  {
    hide ThreadOk, Holds, Private, SizeOk, Replay, Writes, Faithful, Never;
    var prior := if n in w.volumes then Some(w.volumes[n].cid) else None;
    var w' := At(WithVolume(w, t, n, v, e), t, Applied(prior));
    SetEvolves(w, t, n, v, e);
    HeldApart(w, t);
    hide Evolves;
    FaithfulAfterSet(w, t, n, v, e);
    FaithfulStays(w.disk, w.store, w.store, w.published, w'.published, w.log[..w.savedAt]);
    assert w'.log[..w.savedAt] == w.log[..w.savedAt];
    OwnedAfterSet(w, t, n, v, e);
    AppliedOk(w, w', t, e);
    StepKeeps(w, w', t);
  }

  lemma SetEvolves(w: World, t: Tid, n: Name, v: Volume, e: Event)
    requires Inv(w) && t in w.threads && Private(w.threads[t].pc) == Some(v.cid) && e.name == n
    ensures var prior := if n in w.volumes then Some(w.volumes[n].cid) else None;
            Evolves(w, At(WithVolume(w, t, n, v, e), t, Applied(prior)), t)
  {
    hide ThreadOk, Holds, Private, SizeOk, Replay, Writes, Faithful;
    assert HoldsOk(w, t);
  }

  lemma RemoveKeeps(w: World, t: Tid, n: Name)
    requires Inv(w) && t in w.threads && Holds(w.threads[t].pc) == None && n in w.volumes
    requires Never(w.log, t) && Effect(w.threads[t].call) == Some(Gone(n))
    ensures Inv(At(WithoutVolume(w, t, n), t, Applied(Some(w.volumes[n].cid))))
  {
    hide ThreadOk, Holds, Private, SizeOk, Replay, Writes, Faithful, Never;
    var w' := At(WithoutVolume(w, t, n), t, Applied(Some(w.volumes[n].cid)));
    FaithfulAfterRemove(w, t, n);
    assert w'.log[..w.savedAt] == w.log[..w.savedAt];
    OwnedAfterRemove(w, t, n);
    AppliedOk(w, w', t, Gone(n));
    StepKeeps(w, w', t);
  }
}
