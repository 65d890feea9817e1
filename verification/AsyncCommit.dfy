/** The end of the asynchronous write: commit, deferred registration, capsule creation, and the exactness
    of its rollbacks. */
module AsyncCommit {
  import opened Types
  import opened Codec
  import opened NvramSim
  import opened Registry
  import opened Store
  import opened Programs
  import opened AsyncWrite

  /** A program that keeps the invariant and touches no capsule. */
  ghost predicate Leads(env: Env, st: Store, f: multiset<SegmentId>, steps: seq<Step>, st': Store, f': multiset<SegmentId>) {
    Takes(env, st, f, steps, st', f') && Inv(env, st', f') && Quiet(steps)
  }

  lemma LeadsNone(env: Env, st: Store, f: multiset<SegmentId>)
    requires Inv(env, st, f)
    ensures Leads(env, st, f, [], st, f)
  {
  }

  lemma LeadsStep(env: Env, st: Store, f: multiset<SegmentId>, steps: seq<Step>, st1: Store, f1: multiset<SegmentId>, s: Step)
    requires Leads(env, st, f, steps, st1, f1) && Allowed(env, st1, f1, s) && !s.CreateStep? && !s.DropStep?
    ensures Leads(env, st, f, steps + [s], Do(st1, s), Held(st1, f1, s))
  {
    hide Takes, Inv, Quiet, Allowed, Do, Held;
    QuietStep(env, st, f, steps, st1, f1, s);
  }

  lemma LeadsOn(env: Env, st: Store, f: multiset<SegmentId>, a: seq<Step>, st1: Store, f1: multiset<SegmentId>,
                b: seq<Step>, st2: Store, f2: multiset<SegmentId>)
    requires Leads(env, st, f, a, st1, f1) && Leads(env, st1, f1, b, st2, f2)
    ensures Leads(env, st, f, a + b, st2, f2)
  {
    hide Takes, Inv, Quiet;
    TakesConcat(env, st, f, a, st1, f1, b, st2, f2);
    QuietConcat(a, b);
  }

  // ---------------------------------------------------------------- undoing the dedup hits

  /** `b` is `a` but for counts, flags and access counts. */
  predicate SameButCounts(a: Store, b: Store) {
    SameRecords(a.log, b.log) && b.log.file == a.log.file && b.log.next == a.log.next && b.reg == a.reg
  }

  lemma SameButCountsTrans(a: Store, b: Store, c: Store)
    requires SameButCounts(a, b) && SameButCounts(b, c)
    ensures SameButCounts(a, c)
  {
  }

  lemma {:induction false} UndoOk(env: Env, st: Store, held: multiset<SegmentId>, incs: seq<SegmentId>)
    requires Inv(env, st, held) && multiset(incs) <= held
    ensures var u := Undo(st, incs);
            u.error.None? && Leads(env, st, held, u.steps, u.st, held - multiset(incs)) && SameButCounts(st, u.st)
    decreases |incs|
  {
    hide Inv, Takes, Quiet, SameButCounts, Leads;
    if incs == [] {
      assert held - multiset([]) == held;
      LeadsNone(env, st, held);
      SameButCountsRefl(st);
    } else {
      var n, id := |incs| - 1, incs[|incs| - 1];
      var rest := multiset(incs[..n]);
      assert incs == incs[..n] + [id];
      assert multiset(incs) == rest + multiset{id};
      var st1, held1 := Do(st, DecStep(id)), held - multiset{id};
      DecLeads(env, st, held, id);
      UndoOk(env, st1, held1, incs[..n]);
      var r := Undo(st1, incs[..n]);
      assert held1 - rest == held - multiset(incs);
      LeadsOn(env, st, held, [DecStep(id)], st1, held1, r.steps, r.st, held1 - rest);
      SameButCountsTrans(st, st1, r.st);
    }
  }

  lemma SameButCountsRefl(a: Store)
    ensures SameButCounts(a, a)
  {
  }

  lemma DecLeads(env: Env, st: Store, f: multiset<SegmentId>, id: SegmentId)
    requires Inv(env, st, f) && id in f
    ensures id in st.log.segs && st.log.segs[id].refCount > 0
    ensures Leads(env, st, f, [DecStep(id)], Do(st, DecStep(id)), f - multiset{id})
    ensures Inv(env, Do(st, DecStep(id)), f - multiset{id}) && SameButCounts(st, Do(st, DecStep(id)))
  {
    hide Inv, Takes;
    DecOk(env, st, f, id);
  }

  // ---------------------------------------------------------------- the commit

  function FileWritten(st: Store, file: Bytes): Store { st.(log := st.log.(file := file)) }

  function Published(st: Store, t: Txn): Store {
    st.(log := Log(WriteAll(st.log.file, t.pending), st.log.segs + PendingMap(t.pending), t.cur))
  }

  lemma {:induction false} FlushLeads(env: Env, st: Store, f: multiset<SegmentId>, t: Txn, n: nat)
    requires Inv(env, st, f) && Staged(st.log, t) && n <= |t.pending|
    ensures Leads(env, st, f, FlushSteps(t.pending[..n]), FileWritten(st, WriteAll(st.log.file, t.pending[..n])), f)
  {
    if n == 0 {
      LeadsNone(env, st, f);
      assert FileWritten(st, st.log.file) == st;
    } else {
      hide Inv, Leads;
      FlushLeads(env, st, f, t, n - 1);
      assert t.pending[..n][..n - 1] == t.pending[..n - 1];
      var e := t.pending[n - 1];
      var st1 := FileWritten(st, WriteAll(st.log.file, t.pending[..n - 1]));
      assert Clear(st1.log, e.segment.offset);
      LeadsStep(env, st, f, FlushSteps(t.pending[..n - 1]), st1, f, WriteStep(e.segment.offset, e.data));
    }
  }

  lemma CommitLeads(env: Env, st: Store, f: multiset<SegmentId>, t: Txn)
    requires Inv(env, st, f) && Staged(st.log, t) && st.log.next == t.cur
    requires forall i :: 0 <= i < |t.pending| ==> PendingOk(env, t.pending[i], st.reg.nextId)
    ensures Leads(env, st, f, CommitSteps(t, Good), Published(st, t), f + PendingRefs(t.pending))
  {
    hide Inv, Leads, Publishable, Staged, PendingOk, LogOk;
    if t.pending == [] {
      CommitNothing(st, f, t);
      LeadsNone(env, st, f);
    } else {
      FlushedAll(env, st, f, t);
      assert t.pending[..|t.pending|] == t.pending;
      FlushLeads(env, st, f, t, |t.pending|);
      var st1 := FileWritten(st, WriteAll(st.log.file, t.pending));
      LeadsStep(env, st, f, FlushSteps(t.pending), st1, f, PublishStep(t));
    }
  }

  lemma CommitNothing(st: Store, f: multiset<SegmentId>, t: Txn)
    requires t.pending == [] && st.log.next == t.cur
    ensures CommitSteps(t, Good) == [] && Published(st, t) == st && f + PendingRefs(t.pending) == f
  {
    assert st.log.segs + PendingMap(t.pending) == st.log.segs;
  }

  lemma FlushedAll(env: Env, st: Store, f: multiset<SegmentId>, t: Txn)
    requires Inv(env, st, f) && Staged(st.log, t)
    requires forall i :: 0 <= i < |t.pending| ==> PendingOk(env, t.pending[i], st.reg.nextId)
    ensures Publishable(env, FileWritten(st, WriteAll(st.log.file, t.pending)), t)
  {
    hide Counted, Referenced, Indexed, Hashed, Flagged, Allocated, PendingHashed;
    assert t.pending[..|t.pending|] == t.pending;
    WriteAllReads(st.log, t, |t.pending|);
    forall i | 0 <= i < |t.pending| ensures PendingOk(env, t.pending[i], st.reg.nextId) {
    }
  }

  lemma TornLeads(env: Env, st: Store, f: multiset<SegmentId>, t: Txn, entries: nat, bytes: nat)
    requires Inv(env, st, f) && Staged(st.log, t) && t.pending != []
    ensures var st' := FileWritten(st, WriteTorn(st.log.file, t.pending, entries, bytes));
            Leads(env, st, f, CommitSteps(t, Torn(entries, bytes)), st'.(log := st'.log.(next := t.base)), f)
  {
    hide Inv, Leads;
    var file := WriteTorn(st.log.file, t.pending, entries, bytes);
    assert t.pending[..|t.pending|] == t.pending;
    FlushLeads(env, st, f, t, Min(entries, |t.pending|));
    if entries < |t.pending| {
      var e := t.pending[entries];
      var st1 := FileWritten(st, WriteAll(st.log.file, t.pending[..entries]));
      assert Clear(st1.log, e.segment.offset);
      LeadsStep(env, st, f, FlushSteps(t.pending[..entries]), st1, f, WriteStep(e.segment.offset, e.data[..Min(bytes, |e.data|)]));
    }
    var st2 := FileWritten(st, file);
    assert Clear(st2.log, t.base);
    LeadsStep(env, st, f, TornSteps(t.pending, entries, bytes), st2, f, MoveNextStep(t.base));
  }

  // ---------------------------------------------------------------- deferred registration

  function RegMap(regs: seq<(ContentHash, SegmentId)>): map<ContentHash, SegmentId> {
    if regs == [] then map[] else RegMap(regs[..|regs| - 1])[regs[|regs| - 1].0 := regs[|regs| - 1].1]
  }

  function Registered(st: Store, regs: seq<(ContentHash, SegmentId)>): Store {
    if regs == [] then st
    else st.(reg := st.reg.(content := st.reg.content + RegMap(regs), savedId := st.reg.nextId))
  }

  /** The registrations name live segments by their hashes, hashes and ids all distinct. */
  predicate Registrable(st: Store, regs: seq<(ContentHash, SegmentId)>) {
    && (forall i :: 0 <= i < |regs| ==> regs[i].1 in st.log.segs && st.log.segs[regs[i].1].contentHash == Some(regs[i].0))
    && (forall i, j :: 0 <= i < j < |regs| ==> regs[i].0 != regs[j].0 && regs[i].1 != regs[j].1)
  }

  lemma {:induction false} RegisterLeads(env: Env, st: Store, f: multiset<SegmentId>, regs: seq<(ContentHash, SegmentId)>, n: nat)
    requires Inv(env, st, f) && Registrable(st, regs) && n <= |regs|
    ensures Leads(env, st, f, RegisterSteps(regs[..n]), Registered(st, regs[..n]), f)
  {
    hide Inv, Leads, Registrable, Allowed, Held, Do;
    if n == 0 {
      LeadsNone(env, st, f);
    } else {
      hide Registered;
      RegisterLeads(env, st, f, regs, n - 1);
      assert regs[..n][..n - 1] == regs[..n - 1];
      var (h, id) := regs[n - 1];
      var st1 := Registered(st, regs[..n - 1]);
      RegisterAllowed(env, st, f, regs, n - 1);
      LeadsStep(env, st, f, RegisterSteps(regs[..n - 1]), st1, f, RegisterStep(h, id));
      assert Do(st1, RegisterStep(h, id)) == Registered(st, regs[..n]) by { RegisterOne(st, regs[..n]); }
    }
  }

  lemma RegisterAllowed(env: Env, st: Store, f: multiset<SegmentId>, regs: seq<(ContentHash, SegmentId)>, n: nat)
    requires Registrable(st, regs) && n < |regs|
    ensures var st1, s := Registered(st, regs[..n]), RegisterStep(regs[n].0, regs[n].1); Allowed(env, st1, f, s) && Held(st1, f, s) == f
  {
    hide RegMap;
  }

  lemma RegisterOne(st: Store, regs: seq<(ContentHash, SegmentId)>)
    requires regs != []
    ensures var n := |regs| - 1; Do(Registered(st, regs[..n]), RegisterStep(regs[n].0, regs[n].1)) == Registered(st, regs)
  {
    var n := |regs| - 1;
    if n > 0 {
      assert (st.reg.content + RegMap(regs[..n]))[regs[n].0 := regs[n].1] == st.reg.content + RegMap(regs);
    } else {
      assert regs[..n] == [] && RegMap(regs[..n]) == map[];
      assert st.reg.content[regs[n].0 := regs[n].1] == st.reg.content + RegMap(regs);
    }
  }

  // ---------------------------------------------------------------- cleanup after a refused capsule

  function CleanedOne(st: Store, r: (ContentHash, SegmentId)): Store {
    Do(Do(st, DeregisterStep(r.0, r.1)), RemoveStep(r.1))
  }

  function Cleaned(st: Store, regs: seq<(ContentHash, SegmentId)>): Store {
    if regs == [] then st else CleanedOne(Cleaned(st, regs[..|regs| - 1]), regs[|regs| - 1])
  }

  function Zeroed(f: multiset<SegmentId>, regs: seq<(ContentHash, SegmentId)>): multiset<SegmentId> {
    if regs == [] then f else Zeroed(f, regs[..|regs| - 1])[regs[|regs| - 1].1 := 0]
  }

  function IdsOf(regs: seq<(ContentHash, SegmentId)>): set<SegmentId> { set i | 0 <= i < |regs| :: regs[i].1 }
  function HashesOf(regs: seq<(ContentHash, SegmentId)>): set<ContentHash> { set i | 0 <= i < |regs| :: regs[i].0 }

  lemma {:induction false} CleanedContents(st: Store, regs: seq<(ContentHash, SegmentId)>)
    requires forall i :: 0 <= i < |regs| ==> regs[i].0 in st.reg.content && st.reg.content[regs[i].0] == regs[i].1
    requires forall i, j :: 0 <= i < j < |regs| ==> regs[i].0 != regs[j].0 && regs[i].1 != regs[j].1
    ensures var c := Cleaned(st, regs);
            && c.log == st.log.(segs := st.log.segs - IdsOf(regs))
            && c.reg == st.reg.(content := st.reg.content - HashesOf(regs), savedId := c.reg.savedId)
  {
    if regs == [] {
      assert st.log.segs - IdsOf(regs) == st.log.segs;
      assert st.reg.content - HashesOf(regs) == st.reg.content;
    } else {
      var n := |regs| - 1;
      CleanedContents(st, regs[..n]);
      assert IdsOf(regs) == IdsOf(regs[..n]) + {regs[n].1};
      assert HashesOf(regs) == HashesOf(regs[..n]) + {regs[n].0};
      assert regs[n].0 !in HashesOf(regs[..n]);
      assert st.log.segs - IdsOf(regs[..n]) - {regs[n].1} == st.log.segs - IdsOf(regs);
      assert st.reg.content - HashesOf(regs[..n]) - {regs[n].0} == st.reg.content - HashesOf(regs);
    }
  }

  lemma {:induction false} ZeroedAt(f: multiset<SegmentId>, regs: seq<(ContentHash, SegmentId)>, id: SegmentId)
    ensures Zeroed(f, regs)[id] == if id in IdsOf(regs) then 0 else f[id]
  {
    if regs != [] {
      var n := |regs| - 1;
      ZeroedAt(f, regs[..n], id);
      assert IdsOf(regs) == IdsOf(regs[..n]) + {regs[n].1};
    }
  }

  /** The registrations are in the content store. */
  predicate InContent(st: Store, regs: seq<(ContentHash, SegmentId)>) {
    forall i :: 0 <= i < |regs| ==> regs[i].0 in st.reg.content && st.reg.content[regs[i].0] == regs[i].1
  }

  /** No capsule names the registered segments yet. */
  ghost predicate Cleanable(st: Store, regs: seq<(ContentHash, SegmentId)>) {
    && Registrable(st, regs) && InContent(st, regs)
    && forall i :: 0 <= i < |regs| ==> Refs(st.reg.capsules)[regs[i].1] == 0
  }

  lemma {:induction false} CleanupLeads(env: Env, st: Store, f: multiset<SegmentId>, regs: seq<(ContentHash, SegmentId)>)
    requires Inv(env, st, f) && Cleanable(st, regs)
    ensures Leads(env, st, f, CleanupSteps(regs), Cleaned(st, regs), Zeroed(f, regs))
  {
    hide Inv, Leads, CleanedOne, Cleanable;
    if regs == [] {
      LeadsNone(env, st, f);
    } else {
      var init, last := regs[..|regs| - 1], regs[|regs| - 1];
      CleanedNext(st, regs);
      CleanupLeads(env, st, f, init);
      CleanOneLeads(env, st, f, CleanupSteps(init), Cleaned(st, init), Zeroed(f, init), last);
    }
  }

  lemma CleanedNext(st: Store, regs: seq<(ContentHash, SegmentId)>)
    requires Cleanable(st, regs) && regs != []
    ensures var n := |regs| - 1; var st1 := Cleaned(st, regs[..n]);
            && Cleanable(st, regs[..n])
            && regs[n].1 in st1.log.segs && st1.log.segs[regs[n].1].contentHash == Some(regs[n].0)
            && Refs(st1.reg.capsules)[regs[n].1] == 0
  {
    var n := |regs| - 1;
    CleanedContents(st, regs[..n]);
    assert regs[n].1 !in IdsOf(regs[..n]);
  }

  lemma LeadsIndexed(env: Env, st: Store, f: multiset<SegmentId>, steps: seq<Step>, st1: Store, f1: multiset<SegmentId>)
    requires Leads(env, st, f, steps, st1, f1)
    ensures Indexed(st1)
  {
  }

  lemma CleanOneLeads(env: Env, st: Store, f: multiset<SegmentId>, steps: seq<Step>, st1: Store, f1: multiset<SegmentId>,
                      r: (ContentHash, SegmentId))
    requires Leads(env, st, f, steps, st1, f1)
    requires r.1 in st1.log.segs && st1.log.segs[r.1].contentHash == Some(r.0) && Refs(st1.reg.capsules)[r.1] == 0
    ensures Leads(env, st, f, steps + [DeregisterStep(r.0, r.1), RemoveStep(r.1)], CleanedOne(st1, r), f1[r.1 := 0])
  {
    hide Inv, Leads, Refs;
    var d := DeregisterStep(r.0, r.1);
    LeadsIndexed(env, st, f, steps, st1, f1);
    DeregisteredUnindexed(st1, r.1);
    LeadsStep(env, st, f, steps, st1, f1, d);
    LeadsStep(env, st, f, steps + [d], Do(st1, d), f1, RemoveStep(r.1));
    assert steps + [d] + [RemoveStep(r.1)] == steps + [d, RemoveStep(r.1)];
  }
}
