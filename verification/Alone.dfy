/** A call that no other disturbs takes exactly the steps of its program: the machine of interleaved calls and the two
    programs are the same code. */
module Alone {
  import opened Types
  import opened Codec
  import opened NvramSim
  import opened Registry
  import opened Store
  import opened Programs
  import opened Concurrency
  import P = Pipeline

  /** The steps that a call has taken, and where it stands. */
  datatype Path = Path(steps: seq<Step>, th: Thread)

  function Taken(s: Option<Step>): seq<Step> { if s.Some? then [s.value] else [] }

  function Onward(st: Store, p: Path): Path {
    if CanMove(p.th) then
      var (s, th) := MoveOf(Run(st, p.steps), p.th);
      Path(p.steps + Taken(s), th)
    else p
  }

  function Walk(st: Store, p: Path, n: nat): Path { if n == 0 then p else Onward(st, Walk(st, p, n - 1)) }

  lemma {:induction false} WalkOn(st: Store, p: Path, n: nat, m: nat)
    ensures Walk(st, Walk(st, p, n), m) == Walk(st, p, n + m)
  {
    hide Onward;
    if m > 0 {
      WalkOn(st, p, n, m - 1);
      assert n + m - 1 == n + (m - 1);
    }
  }

  /** A walk only adds steps, and stays where it is once the call is over. */
  lemma {:induction false} WalkGrows(st: Store, p: Path, n: nat)
    ensures p.steps <= Walk(st, p, n).steps
    ensures p.th.pc.Over? ==> Walk(st, p, n) == p
  {
    hide Run;
    if n > 0 { WalkGrows(st, p, n - 1); }
  }

  /** One move, from the store that the steps so far have led to. */
  lemma Moved(st: Store, p: Path, at: Store)
    requires Run(st, p.steps) == at && CanMove(p.th)
    ensures var (s, th) := MoveOf(at, p.th);
            && Onward(st, p) == Path(p.steps + Taken(s), th)
            && Run(st, Onward(st, p).steps) == if s.Some? then Do(at, s.value) else at
  {
    var s := MoveOf(at, p.th).0;
    if s.Some? { RunSnoc(st, p.steps, s.value); } else { assert p.steps + Taken(s) == p.steps; }
    hide MoveOf, Do, Run;
  }

  // ---------------------------------------------------------------- a write

  /** The call after a chunk that went well, or did not. */
  function AfterChunk(th: Thread, c: ChunkResult): Thread
    requires th.todo != []
  {
    match c.id
    case Ok(id) => if th.todo[0].prep.Ok? then Advanced(th, th.todo[0].prep.value).(holds := th.holds + [id]) else Fails(th)
    case Err(_) => Fails(th)
  }

  lemma ChunkAlone(st: Store, p: Path) returns (n: nat)
    requires p.th.pc.AtChunk? && p.th.todo != []
    ensures var c := WriteChunk(Run(st, p.steps), p.th.policy.dedupe, p.th.todo[0]);
            Walk(st, p, n) == Path(p.steps + c.steps, AfterChunk(p.th, c))
  {
    hide Run, Tagged, Do, Append, Walk;
    var at, feed := Run(st, p.steps), p.th.todo[0];
    if feed.prep.Err? {
      n := 1;
      Moved(st, p, at);
      WalkOne(st, p);
    } else if p.th.policy.dedupe && feed.prep.value.hash in at.reg.content {
      n := FoundAlone(st, p);
    } else {
      n := NewAlone(st, p);
    }
  }

  lemma WalkOne(st: Store, p: Path)
    ensures Walk(st, p, 1) == Onward(st, p) && Walk(st, p, 0) == p
  {
    hide Onward;
    assert Walk(st, p, 1) == Onward(st, Walk(st, p, 0));
  }

  lemma WalkTwo(st: Store, p: Path)
    ensures Walk(st, p, 2) == Onward(st, Onward(st, p))
  {
    WalkOne(st, p);
    hide Onward;
    assert Walk(st, p, 2) == Onward(st, Walk(st, p, 1));
  }

  lemma FoundAlone(st: Store, p: Path) returns (n: nat)
    requires p.th.pc.AtChunk? && p.th.todo != [] && p.th.todo[0].prep.Ok? && p.th.policy.dedupe
    requires p.th.todo[0].prep.value.hash in Run(st, p.steps).reg.content
    ensures var c := WriteChunk(Run(st, p.steps), p.th.policy.dedupe, p.th.todo[0]);
            Walk(st, p, n) == Path(p.steps + c.steps, AfterChunk(p.th, c))
  {
    hide Run, Do, Walk, Onward;
    var at := Run(st, p.steps);
    n := 2;
    Moved(st, p, at);
    Moved(st, Onward(st, p), at);
    WalkTwo(st, p);
    assert p.steps + [] == p.steps;
  }

  lemma NewAlone(st: Store, p: Path) returns (n: nat)
    requires p.th.pc.AtChunk? && p.th.todo != [] && p.th.todo[0].prep.Ok?
    requires !(p.th.policy.dedupe && p.th.todo[0].prep.value.hash in Run(st, p.steps).reg.content)
    ensures var c := WriteChunk(Run(st, p.steps), p.th.policy.dedupe, p.th.todo[0]);
            Walk(st, p, n) == Path(p.steps + c.steps, AfterChunk(p.th, c))
  {
    hide Run, Do, Walk, Onward, Tagged;
    var at, feed := Run(st, p.steps), p.th.todo[0];
    var chunk := feed.prep.value;
    var id := at.reg.nextId;
    AllocOnly(at);
    Moved(st, p, at);
    var q := Onward(st, p);
    Moved(st, q, Do(at, AllocStep));
    WalkTwo(st, p);
    if feed.io.Torn? {
      n := 2;
      assert p.steps + [AllocStep] + [WriteStep(at.log.next, chunk.data[..Min(feed.io.bytes, |chunk.data|)])]
          == p.steps + [AllocStep, WriteStep(at.log.next, chunk.data[..Min(feed.io.bytes, |chunk.data|)])];
    } else {
      var r := Onward(st, q);
      var after := Do(Do(at, AllocStep), AppendStep(id, chunk.data));
      Moved(st, r, after);
      var s := Onward(st, r);
      var tag := UpdateStep(id, Tagged(FreshSegment(id, at.log.next, |chunk.data|), chunk, p.th.policy.dedupe));
      assert s.steps == p.steps + [AllocStep, AppendStep(id, chunk.data), tag];
      WalkOn(st, p, 2, 1);
      WalkOne(st, r);
      n := 3;
      if p.th.policy.dedupe {
        Moved(st, s, Do(after, tag));
        WalkOn(st, p, 3, 1);
        WalkOne(st, s);
        n := 4;
        assert Onward(st, s).steps == p.steps + NewChunkSteps(at, true, chunk);
      } else {
        assert s.steps == p.steps + NewChunkSteps(at, false, chunk);
      }
    }
  }

  lemma AllocOnly(st: Store)
    ensures Do(st, AllocStep).log == st.log
  {
  }

  /** The call as it stands in the loop of its program. */
  predicate InLoop(first: Thread, th: Thread, r: LoopState, j: nat)
    requires j <= |first.todo|
  {
    && th.holds == r.ids && th.cid == first.cid && th.size == first.size && th.policy == first.policy
    && (if r.error.None? then th.pc.AtChunk? && th.todo == first.todo[j..] else th.pc == Over(false))
  }

  lemma {:induction false} LoopAlone(st: Store, th: Thread, j: nat) returns (n: nat)
    requires th.pc.AtChunk? && th.holds == [] && j <= |th.todo|
    ensures var r, p := WriteLoop(st, th.policy.dedupe, th.todo[..j]), Walk(st, Path([], th), n);
            p.steps == r.steps && InLoop(th, p.th, r, j)
  {
    hide Run, Walk, Onward, WriteLoop, WriteChunk, InLoop, AfterChunk, LoopStep;
    var dedupe := th.policy.dedupe;
    if j == 0 {
      n := 0;
      LoopBegins(st, th);
      assert th.todo[..0] == [];
    } else {
      n := LoopAlone(st, th, j - 1);
      var r, p := WriteLoop(st, dedupe, th.todo[..j - 1]), Walk(st, Path([], th), n);
      P.WriteLoopAdvances(st, dedupe, th.todo, j - 1);
      P.WriteLoopRuns(st, dedupe, th.todo[..j - 1]);
      LoopStops(r, dedupe, th.todo[j - 1]);
      if r.error.None? {
        NextChunk(th, p.th, r, j);
        var m := ChunkAlone(st, p);
        WalkOn(st, Path([], th), n, m);
        n := n + m;
        LoopGoesOn(r, dedupe, th.todo[j - 1]);
      } else {
        StaysInLoop(th, p.th, r, j);
      }
    }
  }

  lemma LoopBegins(st: Store, th: Thread)
    requires th.pc.AtChunk? && th.holds == []
    ensures Walk(st, Path([], th), 0) == Path([], th) && WriteLoop(st, th.policy.dedupe, []) == LoopState(st, [], [], None)
    ensures InLoop(th, th, LoopState(st, [], [], None), 0)
  {
  }

  lemma LoopStops(r: LoopState, dedupe: bool, feed: Feed)
    ensures r.error.Some? ==> LoopStep(r, dedupe, feed) == r
  {
  }

  lemma LoopGoesOn(r: LoopState, dedupe: bool, feed: Feed)
    requires r.error.None?
    ensures LoopStep(r, dedupe, feed).steps == r.steps + WriteChunk(r.st, dedupe, feed).steps
  {
    hide Run, WriteChunk;
  }

  lemma StaysInLoop(first: Thread, th: Thread, r: LoopState, j: nat)
    requires 0 < j <= |first.todo| && r.error.Some? && InLoop(first, th, r, j - 1)
    ensures InLoop(first, th, r, j)
  {
  }

  lemma NextChunk(first: Thread, th: Thread, r: LoopState, j: nat)
    requires 0 < j <= |first.todo| && r.error.None? && InLoop(first, th, r, j - 1)
    ensures th.pc.AtChunk? && th.policy == first.policy && th.todo != [] && th.todo[0] == first.todo[j - 1]
    ensures var dedupe := first.policy.dedupe;
            InLoop(first, AfterChunk(th, WriteChunk(r.st, dedupe, first.todo[j - 1])), LoopStep(r, dedupe, first.todo[j - 1]), j)
  {
    hide Run, WriteChunk;
    PreparedIfStored(r.st, first.policy.dedupe, first.todo[j - 1]);
    assert th.todo[1..] == first.todo[j..];
  }

  lemma PreparedIfStored(st: Store, dedupe: bool, feed: Feed)
    ensures WriteChunk(st, dedupe, feed).id.Ok? ==> feed.prep.Ok?
  {
  }

  /** Left alone, a write takes exactly the steps of the sequential program, and ends as that ends. */
  lemma WriteAlone(st: Store, th: Thread) returns (n: nat)
    requires th.pc.AtChunk? && th.holds == []
    ensures var w, p := SyncWrite(st, th.cid, th.size, th.policy, th.todo), Walk(st, Path([], th), n);
            p.steps == w.steps && p.th.pc == Over(w.outcome.Ok?)
  {
    hide Run, Walk, Onward, WriteLoop;
    n := LoopAlone(st, th, |th.todo|);
    assert th.todo[..|th.todo|] == th.todo;
    var p, r := Walk(st, Path([], th), n), WriteLoop(st, th.policy.dedupe, th.todo);
    P.WriteLoopRuns(st, th.policy.dedupe, th.todo);
    if r.error.None? {
      Moved(st, p, r.st);
      WalkOne(st, p);
      WalkOn(st, Path([], th), n, 1);
      n := n + 1;
      assert r.steps + [] == r.steps;
    }
  }

  // ---------------------------------------------------------------- a delete

  predicate InRelease(th: Thread, ids: seq<SegmentId>, r: Release, j: nat)
    requires j <= |ids|
  {
    if r.error.None? then th.pc.AtRef? && th.holds == ids[j..] else th.pc == Over(false)
  }

  lemma ReleaseAlone(st: Store, p: Path) returns (n: nat)
    requires p.th.pc.AtRef? && p.th.holds != []
    ensures var r := ReleaseOne(Release(Run(st, p.steps), p.steps, None), p.th.holds[0]);
            Walk(st, p, n).steps == r.steps && InRelease(Walk(st, p, n).th, p.th.holds, r, 1)
  {
    hide Run, Do, Walk, Onward;
    var at, id := Run(st, p.steps), p.th.holds[0];
    n := 1;
    Moved(st, p, at);
    WalkOne(st, p);
    assert p.steps + [] == p.steps;
    if id in at.log.segs && at.log.segs[id].refCount == 1 {
      var s, at1, q := at.log.segs[id], Do(at, DecStep(id)), Onward(st, p);
      Moved(st, q, at1);
      WalkTwo(st, p);
      n := 2;
      var last := Onward(st, q);
      if s.contentHash.Some? {
        Moved(st, last, Do(at1, DeregisterStep(s.contentHash.value, id)));
        WalkOn(st, p, 2, 1);
        WalkOne(st, last);
        n := 3;
        assert Onward(st, last).steps == p.steps + ReleaseSteps(at, id);
      } else {
        assert last.steps == p.steps + ReleaseSteps(at, id);
      }
    }
  }

  lemma {:induction false} ReleasesAlone(st: Store, p: Path, j: nat) returns (n: nat)
    requires p.th.pc.AtRef? && j <= |p.th.holds|
    ensures var r, q := ReleaseLoop(Run(st, p.steps), p.th.holds[..j]), Walk(st, p, n);
            q.steps == p.steps + r.steps && InRelease(q.th, p.th.holds, r, j)
  {
    hide Run, Walk, Onward, ReleaseLoop, ReleaseSteps, ReleaseOne, InRelease;
    var at, ids := Run(st, p.steps), p.th.holds;
    if j == 0 {
      n := 0;
      ReleaseBegins(st, p, at);
      assert ids[..0] == [] && p.steps + [] == p.steps;
    } else {
      n := ReleasesAlone(st, p, j - 1);
      var r, q := ReleaseLoop(at, ids[..j - 1]), Walk(st, p, n);
      P.ReleaseLoopAdvances(at, ids, j - 1);
      P.ReleaseLoopRuns(at, ids[..j - 1]);
      RunConcat(st, p.steps, r.steps);
      if r.error.None? {
        AtRelease(q.th, ids, r, j);
        var m := ReleaseAlone(st, q);
        WalkOn(st, p, n, m);
        n := n + m;
        NextRelease(q.th, ids, Release(r.st, q.steps, None), r, Walk(st, q, m).th, j);
        StepsAppended(p.steps, r, ids[j - 1]);
      } else {
        StaysInRelease(q.th, ids, r, j);
      }
    }
  }

  lemma ReleaseBegins(st: Store, p: Path, at: Store)
    requires p.th.pc.AtRef?
    ensures Walk(st, p, 0) == p && ReleaseLoop(at, []) == Release(at, [], None)
    ensures InRelease(p.th, p.th.holds, Release(at, [], None), 0)
  {
  }

  lemma AtRelease(th: Thread, ids: seq<SegmentId>, r: Release, j: nat)
    requires 0 < j <= |ids| && r.error.None? && InRelease(th, ids, r, j - 1)
    ensures th.pc.AtRef? && th.holds == ids[j - 1..] && th.holds[0] == ids[j - 1]
  {
  }

  lemma StaysInRelease(th: Thread, ids: seq<SegmentId>, r: Release, j: nat)
    requires 0 < j <= |ids| && r.error.Some? && InRelease(th, ids, r, j - 1)
    ensures InRelease(th, ids, ReleaseOne(r, ids[j - 1]), j) && ReleaseOne(r, ids[j - 1]) == r
  {
  }

  lemma NextRelease(th: Thread, ids: seq<SegmentId>, a: Release, b: Release, th': Thread, j: nat)
    requires 0 < j <= |ids| && th.holds == ids[j - 1..] && a.error.None? && b.error.None? && a.st == b.st
    requires InRelease(th', th.holds, ReleaseOne(a, th.holds[0]), 1)
    ensures th.holds[0] == ids[j - 1] && InRelease(th', ids, ReleaseOne(b, ids[j - 1]), j)
  {
    hide Run, ReleaseSteps;
    assert th.holds[1..] == ids[j..];
  }

  lemma StepsAppended(before: seq<Step>, r: Release, id: SegmentId)
    requires r.error.None?
    ensures var a, b := ReleaseOne(Release(r.st, before + r.steps, None), id), ReleaseOne(r, id);
            a.steps == before + b.steps && a.error == b.error
  {
    hide Run, ReleaseSteps;
    if id in r.st.log.segs && r.st.log.segs[id].refCount > 0 {
      var more := ReleaseSteps(r.st, id);
      assert before + r.steps + more == before + (r.steps + more);
    }
  }

  /** Left alone, a delete takes exactly the steps of its program, and ends as that ends. */
  lemma DeleteAlone(st: Store, th: Thread) returns (n: nat)
    requires th.pc.AtCapsule?
    ensures var d, p := Delete(st, th.cid), Walk(st, Path([], th), n);
            p.steps == d.steps && p.th.pc == Over(d.outcome.Ok?)
  {
    hide Run, Walk, Onward, ReleaseLoop, Do;
    var p := Path([], th);
    P.RunNothing(st);
    Moved(st, p, st);
    WalkOne(st, p);
    n := 1;
    if th.cid in st.reg.capsules {
      var q, ids := Onward(st, p), st.reg.capsules[th.cid].segments;
      var m := ReleasesAlone(st, q, |ids|);
      assert ids[..|ids|] == ids;
      WalkOn(st, p, 1, m);
      n := 1 + m;
      var r := ReleaseLoop(Do(st, DropStep(th.cid)), ids);
      P.ReleaseLoopRuns(Do(st, DropStep(th.cid)), ids);
      if r.error.None? {
        var last := Walk(st, q, m);
        RunConcat(st, q.steps, r.steps);
        Moved(st, last, Run(st, last.steps));
        WalkOne(st, last);
        WalkOn(st, p, n, 1);
        n := n + 1;
        assert last.steps + [] == last.steps;
      }
    }
  }

  // ---------------------------------------------------------------- the machine

  /** A run in which only call `t` moves is its walk. */
  lemma {:induction false} RunIsWalk(states: seq<Sys>, run: seq<Action>, t: Tid, i: nat)
    requires IsRun(states, run) && t in states[0].threads && i <= |run| && forall k :: 0 <= k < |run| ==> run[k] == Move(t)
    ensures var p := Walk(states[0].st, Path([], states[0].threads[t]), i);
            t in states[i].threads && states[i].threads[t] == p.th && states[i].st == Run(states[0].st, p.steps)
  {
    if i == 0 {
      P.RunNothing(states[0].st);
    } else {
      hide Run, MoveOf, Walk;
      RunIsWalk(states, run, t, i - 1);
      var p := Walk(states[0].st, Path([], states[0].threads[t]), i - 1);
      assert run[i - 1] == Move(t);
      Moved(states[0].st, p, states[i - 1].st);
      WalkNext(states[0].st, Path([], states[0].threads[t]), i);
    }
  }

  lemma WalkNext(st: Store, p: Path, n: nat)
    requires n > 0
    ensures Walk(st, p, n) == Onward(st, Walk(st, p, n - 1))
  {
  }

  /** What a call is there to do. */
  function ProgramOf(st: Store, th: Thread): Program {
    if th.pc.AtChunk? then SyncWrite(st, th.cid, th.size, th.policy, th.todo) else Delete(st, th.cid)
  }

  /** While only one new call moves, the machine's store is the one that some of its program's steps have led to; and after
      `n` moves the call is over, the store is that of the whole program, and the call ends well exactly if the program does. */
  lemma AloneIsProgram(states: seq<Sys>, run: seq<Action>, t: Tid) returns (n: nat)
    requires IsRun(states, run) && t in states[0].threads && New(states[0].threads[t]) && forall k :: 0 <= k < |run| ==> run[k] == Move(t)
    ensures var st, w := states[0].st, ProgramOf(states[0].st, states[0].threads[t]);
            && (forall i :: 0 <= i < |states| ==> exists k :: 0 <= k <= |w.steps| && states[i].st == Run(st, w.steps[..k]))
            && (forall i :: n <= i < |states| ==>
                  t in states[i].threads && states[i].threads[t].pc == Over(w.outcome.Ok?) && states[i].st == Run(st, w.steps))
  {
    hide Run, Walk, Onward, SyncWrite, Delete, CanMove, MoveOf, Go;
    var st, th := states[0].st, states[0].threads[t];
    var p, w := Path([], th), ProgramOf(st, th);
    if th.pc.AtChunk? { n := WriteAlone(st, th); } else { n := DeleteAlone(st, th); }
    forall i | 0 <= i < |states|
      ensures exists k :: 0 <= k <= |w.steps| && states[i].st == Run(st, w.steps[..k])
      ensures i >= n ==> t in states[i].threads && states[i].threads[t].pc == Over(w.outcome.Ok?) && states[i].st == Run(st, w.steps)
    {
      RunIsWalk(states, run, t, i);
      var q := Walk(st, p, i);
      if i < n {
        WalkOn(st, p, i, n - i);
        WalkGrows(st, q, n - i);
        assert w.steps[..|q.steps|] == q.steps;
      } else {
        WalkOn(st, p, n, i - n);
        WalkGrows(st, Walk(st, p, n), i - n);
        assert w.steps[..|w.steps|] == w.steps;
      }
    }
  }
}
