/** Histories: any sequence of writes, deletes, sweeps and crashes at any step, against the abstract store
    `map<CapsuleId, Entry>`. */
module Runs {
  import opened Types
  import opened Codec
  import opened NvramSim
  import opened Registry
  import opened Store
  import opened Programs
  import opened Recovery
  import opened AsyncWrite
  import opened AsyncCommit
  import opened AsyncCorrect
  import opened Refinement
  import opened AsyncMain

  /** One operation. `keys` gives the key version each chunk is encrypted under (keys may rotate at any time;
      None: no key manager); `devices` and `device` say what the disk does. */
  datatype Work =
    | SyncWork(cid: CapsuleId, data: Bytes, policy: Policy, keys: nat -> Option<nat>, devices: nat -> Io)
    | AsyncWork(cid: CapsuleId, data: Bytes, policy: Policy, keys: nat -> Option<nat>, arrivals: seq<nat>, device: Io)
    | DeleteWork(cid: CapsuleId)

  /** An operation that runs to its end, one that stops after `k` persistence steps and is followed by a
      restart, or a run of the collector. */
  datatype Event = Done(work: Work) | Crashed(work: Work, k: nat) | Collected

  function Results(env: Env, data: Bytes, policy: Policy, keys: nat -> Option<nat>): seq<Result<Prepared>> {
    var chunks := Chunks(data);
    seq(|chunks|, i requires 0 <= i < |chunks| => Prepare(env, policy, keys(i), chunks[i]))
  }

  function FeedsOf(env: Env, data: Bytes, policy: Policy, keys: nat -> Option<nat>, devices: nat -> Io): seq<Feed> {
    var results := Results(env, data, policy, keys);
    seq(|results|, i requires 0 <= i < |results| => Feed(results[i], devices(i)))
  }

  predicate Possible(env: Env, w: Work) {
    w.AsyncWork? ==> Arrivals(Results(env, w.data, w.policy, w.keys), w.arrivals)
  }

  function ProgramOf(env: Env, st: Store, w: Work): Program
    requires Possible(env, w)
  {
    match w
    case SyncWork(cid, data, policy, keys, devices) => SyncWrite(st, cid, |data|, policy, FeedsOf(env, data, policy, keys, devices))
    case AsyncWork(cid, data, policy, keys, arrivals, device) =>
      AsyncWrite.AsyncWrite(st, cid, |data|, policy, Results(env, data, policy, keys), arrivals, device)
    case DeleteWork(cid) => Delete(st, cid)
  }

  /** The persisted store after the first `k` steps of an operation. */
  function Interrupted(env: Env, st: Store, w: Work, k: nat): Store
    requires Possible(env, w)
  {
    var steps := ProgramOf(env, st, w).steps;
    Run(st, steps[..Min(k, |steps|)])
  }

  ghost function After(env: Env, st: Store, e: Event): Store
    requires e.Collected? || Possible(env, e.work)
  {
    match e
    case Done(w) => Run(st, ProgramOf(env, st, w).steps)
    case Crashed(w, k) => Reconciled(Opened(Interrupted(env, st, w, k)))
    case Collected => Swept(st)
  }

  /** What the abstract store is when `k` steps of `w` are persisted: a write takes effect with its last
      step if it succeeds, a delete with its first. */
  function Expected(env: Env, st: Store, view: map<CapsuleId, Entry>, w: Work, k: nat): map<CapsuleId, Entry>
    requires Possible(env, w)
  {
    var p := ProgramOf(env, st, w);
    if w.DeleteWork? then (if k > 0 then view - {w.cid} else view)
    else if p.outcome.Ok? && k >= |p.steps| then view[w.cid := Entry(Stored(env, w), |w.data|)]
    else view
  }

  function ExpectedAfter(env: Env, st: Store, view: map<CapsuleId, Entry>, e: Event): map<CapsuleId, Entry>
    requires e.Collected? || Possible(env, e.work)
  {
    match e
    case Done(w) => Expected(env, st, view, w, |ProgramOf(env, st, w).steps|)
    case Crashed(w, k) => Expected(env, st, view, w, k)
    case Collected => view
  }

  /** What the chunk is read back as: the read path unpacks whatever was stored. */
  function DecodedChunk(env: Env, c: Compression, chunk: Bytes): Bytes {
    match AdaptiveCompress(env, c, chunk)
    case Ok(p) => Unpack(env, c, p.data)
    case Err(_) => chunk
  }

  function Decoded(env: Env, w: Work): seq<Bytes>
    requires !w.DeleteWork?
  {
    var chunks := Chunks(w.data);
    seq(|chunks|, i requires 0 <= i < |chunks| => DecodedChunk(env, w.policy.compression, chunks[i]))
  }

  /** What a successful write stores, as its reader sees it. */
  function Stored(env: Env, w: Work): Bytes
    requires !w.DeleteWork?
  {
    Flatten(Decoded(env, w))
  }

  /** The data of a write reads back as itself under its policy: whatever is stored raw is not a frame the
      decoder takes for something else. */
  predicate Unambiguous(env: Env, w: Work) {
    w.DeleteWork? || forall i :: 0 <= i < |Chunks(w.data)| ==> UnambiguousChunk(env, w.policy.compression, Chunks(w.data)[i])
  }

  function ChunkCount(w: Work): nat { if w.DeleteWork? then 0 else |Chunks(w.data)| }

  // ---------------------------------------------------------------- what preparation provides

  lemma ResultsSound(env: Env, data: Bytes, policy: Policy, keys: nat -> Option<nat>)
    requires SoundCipher(env)
    ensures SoundResults(env, Results(env, data, policy, keys))
    ensures |Results(env, data, policy, keys)| == |Chunks(data)|
  {
    hide SoundCipher, Prepare, Chunks, Sealed;
    ChunksPartition(data);
    forall i | 0 <= i < |Chunks(data)| && Results(env, data, policy, keys)[i].Ok?
      ensures Sealed(env, Results(env, data, policy, keys)[i].value)
      ensures |Results(env, data, policy, keys)[i].value.data| <= U32_MAX
    {
      PreparedDecrypts(env, policy, keys(i), Chunks(data)[i]);
    }
  }

  lemma ResultsFaithful(env: Env, w: Work)
    requires SoundCipher(env) && !w.DeleteWork?
    ensures var results := Results(env, w.data, w.policy, w.keys);
            && |results| == |Decoded(env, w)|
            && forall i :: 0 <= i < |results| && results[i].Ok? ==> Faithful(env, w.policy.compression, Decoded(env, w)[i], results[i].value)
  {
    hide SoundCipher, Chunks, AdaptiveCompress, Prepare, Sealed, Decrypt, Unpack;
    var results := Results(env, w.data, w.policy, w.keys);
    forall i | 0 <= i < |results| && results[i].Ok?
      ensures Faithful(env, w.policy.compression, Decoded(env, w)[i], results[i].value)
    {
      PreparedDecrypts(env, w.policy, w.keys(i), Chunks(w.data)[i]);
    }
  }

  /** What is stored is the data if every chunk is unambiguous; and only then, for a single chunk, or where no chunk is
      misread at another length. */
  lemma StoredIff(env: Env, w: Work)
    requires !w.DeleteWork?
    ensures Unambiguous(env, w) <==> Decoded(env, w) == Chunks(w.data)
    ensures Unambiguous(env, w) ==> Stored(env, w) == w.data
    ensures |w.data| <= SEGMENT_SIZE || SameLengths(Decoded(env, w), Chunks(w.data)) ==> (Stored(env, w) == w.data <==> Unambiguous(env, w))
  {
    hide DecodedChunk, Chunks;
    var chunks := Chunks(w.data);
    ChunksPartition(w.data);
    forall i | 0 <= i < |chunks|
      ensures DecodedChunk(env, w.policy.compression, chunks[i]) == chunks[i] <==> UnambiguousChunk(env, w.policy.compression, chunks[i])
    {
      DecodedIff(env, w.policy.compression, chunks[i]);
    }
    assert Unambiguous(env, w) <==> forall i :: 0 <= i < |chunks| ==> Decoded(env, w)[i] == chunks[i];
    if |w.data| <= SEGMENT_SIZE { OneChunk(env, w); }
    if SameLengths(Decoded(env, w), chunks) && Stored(env, w) == w.data { FlattenInjective(Decoded(env, w), chunks); }
  }

  predicate SameLengths(a: seq<Bytes>, b: seq<Bytes>) { |a| == |b| && forall i :: 0 <= i < |a| ==> |a[i]| == |b[i]| }

  lemma OneChunk(env: Env, w: Work)
    requires !w.DeleteWork? && |w.data| <= SEGMENT_SIZE
    ensures Stored(env, w) == w.data <==> Decoded(env, w) == Chunks(w.data)
  {
    hide DecodedChunk;
    var d := Decoded(env, w);
    if w.data == [] {
      assert d == [];
    } else {
      assert d[..0] == [] && Flatten(d) == Flatten(d[..0]) + d[0] == d[0];
    }
  }

  lemma DecodedIff(env: Env, c: Compression, chunk: Bytes)
    ensures DecodedChunk(env, c, chunk) == chunk <==> UnambiguousChunk(env, c, chunk)
  {
  }

  predicate UnambiguousChunk(env: Env, c: Compression, chunk: Bytes) {
    AdaptiveCompress(env, c, chunk).Ok? ==> AdaptiveCompress(env, c, chunk).value.compressed || RawSafe(env, c, chunk)
  }

  // ---------------------------------------------------------------- one operation, stopped anywhere

  lemma LeadsPrefixShows(env: Env, st: Store, f: multiset<SegmentId>, steps: seq<Step>, st1: Store, f1: multiset<SegmentId>,
                         view: map<CapsuleId, Entry>, k: nat)
    requires Inv(env, st, f) && Leads(env, st, f, steps, st1, f1) && Shows(env, st, view) && k <= |steps|
    ensures AllAllowed(env, st, f, steps[..k]) && Shows(env, Run(st, steps[..k]), view)
  {
    hide Inv, Shows, AllAllowed, Run, HeldAfter;
    AllowedPrefix(env, st, f, steps, k);
    QuietPrefix(steps, k);
    QuietShows(env, st, f, steps[..k], view);
  }

  /** References are conserved: capsules and operation together never hold more than before plus the chunks. */
  ghost predicate Conserved(st: Store, f: multiset<SegmentId>, st': Store, f': multiset<SegmentId>, n: nat) {
    |Refs(st'.reg.capsules)| + |f'| <= |Refs(st.reg.capsules)| + |f| + n
  }

  /** The whole operation: allowed steps, exact counts, no dead segment, references conserved. */
  ghost predicate Finishes(env: Env, st: Store, f: multiset<SegmentId>, w: Work, f': multiset<SegmentId>)
    requires Possible(env, w)
  {
    var steps := ProgramOf(env, st, w).steps; var st' := Run(st, steps);
    && Takes(env, st, f, steps, st', f') && Inv(env, st', f')
    && (NoZero(st.log) ==> NoZero(st'.log))
    && Conserved(st, f, st', f', ChunkCount(w))
  }

  lemma SyncFinishes(env: Env, st: Store, f: multiset<SegmentId>, w: Work) returns (f': multiset<SegmentId>)
    requires w.SyncWork? && SoundCipher(env) && Inv(env, st, f) && Room(st.log, ChunkCount(w))
    ensures Finishes(env, st, f, w, f')
  {
    hide Inv, Takes, SoundCipher, Chunks, Sealed, Prepare, NoZero, LoopInv, WriteLoop, Run;
    var feeds := FeedsOf(env, w.data, w.policy, w.keys, w.devices);
    ResultsSound(env, w.data, w.policy, w.keys);
    SyncWriteOk(env, st, f, w.cid, |w.data|, w.policy, feeds);
    WriteLoopOk(env, st, f, w.policy.dedupe, feeds);
    var r := WriteLoop(st, w.policy.dedupe, feeds);
    f' := if ProgramOf(env, st, w).outcome.Ok? then f else f + multiset(r.ids);
    LoopRuns(env, st, f, r);
    RunSnoc(st, r.steps, CreateStep(w.cid, Capsule(|w.data|, r.ids, w.policy)));
    if ProgramOf(env, st, w).outcome.Ok? {
      RefsCreate(st.reg.capsules, w.cid, Capsule(|w.data|, r.ids, w.policy));
    }
    assert |multiset(r.ids)| == |r.ids|;
  }

  lemma DeleteFinishes(env: Env, st: Store, f: multiset<SegmentId>, w: Work)
    requires w.DeleteWork? && Inv(env, st, f)
    ensures Finishes(env, st, f, w, f)
  {
    hide Inv, Takes, NoZero, Delete, Run;
    DeleteOk(env, st, f, w.cid);
    if w.cid in st.reg.capsules {
      RefsSplit(st.reg.capsules, w.cid);
    } else {
      assert st.reg.capsules - {w.cid} == st.reg.capsules;
    }
  }

  lemma AsyncFinishes(env: Env, st: Store, f: multiset<SegmentId>, w: Work) returns (f': multiset<SegmentId>)
    requires w.AsyncWork? && Possible(env, w) && SoundCipher(env) && Inv(env, st, f) && Room(st.log, ChunkCount(w))
    ensures Finishes(env, st, f, w, f')
  {
    hide Inv, Takes, SoundCipher, Chunks, Sealed, Prepare, NoZero, Run, Leads, FlightInv, CommitLoop, AsyncWrite.AsyncWrite, Landed, LandedSteps,
         Reach, Arrivals, Refs;
    var results := Results(env, w.data, w.policy, w.keys);
    ResultsSound(env, w.data, w.policy, w.keys);
    var p := ProgramOf(env, st, w);
    if results == [] {
      EmptyWriteOk(env, st, f, w.cid, w.policy, w.arrivals, w.device);
      f' := f;
      EmptyFinishes(env, st, f, w);
    } else if p.outcome.Ok? {
      f' := f;
      AsyncOkFinishes(env, st, f, w);
    } else {
      f' := HeldAtEnd(st, f, w.cid, w.policy, results, w.arrivals, w.device);
      AsyncErrFinishes(env, st, f, w);
    }
  }

  lemma EmptyFinishes(env: Env, st: Store, f: multiset<SegmentId>, w: Work)
    requires w.AsyncWork? && Possible(env, w) && Inv(env, st, f) && Results(env, w.data, w.policy, w.keys) == []
    ensures Finishes(env, st, f, w, f)
  {
    hide Inv, Takes, Prepare, NoZero, Run, AsyncWrite.AsyncWrite, Refs;
    assert w.data == [] by { ChunksPartition(w.data); }
    EmptyWriteOk(env, st, f, w.cid, w.policy, w.arrivals, w.device);
    var c := Capsule(0, [], w.policy);
    if ProgramOf(env, st, w).outcome.Ok? && w.cid !in st.reg.capsules {
      RefsCreate(st.reg.capsules, w.cid, c);
    }
  }

  lemma AsyncOkFinishes(env: Env, st: Store, f: multiset<SegmentId>, w: Work)
    requires w.AsyncWork? && Possible(env, w) && SoundCipher(env) && Inv(env, st, f) && Room(st.log, ChunkCount(w))
    requires Results(env, w.data, w.policy, w.keys) != [] && ProgramOf(env, st, w).outcome.Ok?
    ensures Finishes(env, st, f, w, f)
  {
    hide Inv, Takes, SoundCipher, Chunks, Sealed, Prepare, NoZero, Run, Leads, FlightInv, CommitLoop, AsyncWrite.AsyncWrite, Landed, LandedSteps,
         Reach, Arrivals, Refs, AsyncCommit.Cleanable, ReadsSame;
    var results := Results(env, w.data, w.policy, w.keys);
    ResultsSound(env, w.data, w.policy, w.keys);
    AsyncSuccess(env, st, f, w.cid, |w.data|, w.policy, results, w.arrivals, w.device);
    FlightOfOk(env, st, f, w.policy.dedupe, results, w.arrivals);
    var fl := FlightOf(st, w.policy.dedupe, results, w.arrivals);
    var c := Capsule(|w.data|, fl.ids, w.policy);
    CreateLands(env, st, f, w.policy.dedupe, fl, w.cid, c);
    LandedNoZero(env, st, f, w);
    FlightLeads(env, st, f, w.policy.dedupe, fl);
    LandedCleanable(env, st, f, w.policy.dedupe, fl);
    CreatedConserved(st, f, Landed(fl), w.cid, c, |results|);
    TakesRun(env, st, f, LandedSteps(fl) + [CreateStep(w.cid, c)], Do(Landed(fl), CreateStep(w.cid, c)), f);
  }

  lemma TakesRun(env: Env, st: Store, f: multiset<SegmentId>, steps: seq<Step>, st1: Store, f1: multiset<SegmentId>)
    requires Takes(env, st, f, steps, st1, f1)
    ensures Run(st, steps) == st1
  {
  }

  lemma CreatedConserved(st: Store, f: multiset<SegmentId>, st1: Store, cid: CapsuleId, c: Capsule, n: nat)
    requires st1.reg.capsules == st.reg.capsules && cid !in st.reg.capsules && |c.segments| <= n
    ensures Conserved(st, f, Do(st1, CreateStep(cid, c)), f, n)
  {
    RefsCreate(st.reg.capsules, cid, c);
    assert |multiset(c.segments)| == |c.segments|;
  }

  lemma CompleteValues(env: Env, st: Store, w: Work)
    requires w.AsyncWork? && Possible(env, w) && Complete(Results(env, w.data, w.policy, w.keys), w.arrivals)
    ensures var results := Results(env, w.data, w.policy, w.keys);
            && (forall i :: 0 <= i < |results| ==> results[i].Ok?)
            && FlightOf(st, w.policy.dedupe, results, w.arrivals) == CommitLoop(st, w.policy.dedupe, Values(results))
  {
    hide Prepare, Chunks, CommitLoop;
    var results := Results(env, w.data, w.policy, w.keys);
    ReachedOk(results, w.arrivals);
    assert results[..|results|] == results;
  }

  lemma LandedNoZero(env: Env, st: Store, f: multiset<SegmentId>, w: Work)
    requires w.AsyncWork? && Possible(env, w) && SoundCipher(env) && Inv(env, st, f) && Room(st.log, ChunkCount(w))
    requires Complete(Results(env, w.data, w.policy, w.keys), w.arrivals)
    ensures NoZero(st.log) ==> NoZero(Landed(FlightOf(st, w.policy.dedupe, Results(env, w.data, w.policy, w.keys), w.arrivals)).log)
  {
    hide Inv, SoundCipher, Chunks, Sealed, Prepare, NoZero, CommitLoop, Landed, ReadsSame, Complete;
    ResultsSound(env, w.data, w.policy, w.keys);
    CompleteValues(env, st, w);
    LandedReads(env, st, f, w.policy.dedupe, Values(Results(env, w.data, w.policy, w.keys)));
  }

  lemma AsyncErrFinishes(env: Env, st: Store, f: multiset<SegmentId>, w: Work)
    requires w.AsyncWork? && Possible(env, w) && SoundCipher(env) && Inv(env, st, f) && Room(st.log, ChunkCount(w))
    requires Results(env, w.data, w.policy, w.keys) != [] && ProgramOf(env, st, w).outcome.Err?
    ensures Finishes(env, st, f, w, HeldAtEnd(st, f, w.cid, w.policy, Results(env, w.data, w.policy, w.keys), w.arrivals, w.device))
  {
    hide Inv, SoundCipher, Chunks, Sealed, Prepare, Run, FlightInv, CommitLoop, AsyncWrite.AsyncWrite, Arrivals, Refs, Quiet, Takes,
         Restored, Truncated, Complete, Landed, NoZero;
    var results := Results(env, w.data, w.policy, w.keys);
    ResultsSound(env, w.data, w.policy, w.keys);
    AsyncFailureExact(env, st, f, w.cid, |w.data|, w.policy, results, w.arrivals, w.device);
    FlightOfOk(env, st, f, w.policy.dedupe, results, w.arrivals);
    var steps := ProgramOf(env, st, w).steps;
    QuietCapsules(st, steps);
    var ids := FlightOf(st, w.policy.dedupe, results, w.arrivals).ids;
    assert |multiset(ids)| == |ids| <= |results|;
    if Restored(st, Run(st, steps)) {
      RestoredNoZero(st, Run(st, steps));
    } else {
      LandedNoZero(env, st, f, w);
    }
  }

  lemma RestoredNoZero(a: Store, b: Store)
    requires Restored(a, b)
    ensures NoZero(a.log) ==> NoZero(b.log)
  {
    forall id | id in b.log.segs ensures b.log.segs[id].refCount == a.log.segs[id].refCount {
    }
  }

  /** An operation stopped after any number of steps: the counts are exact for what it then holds, and the
      persisted capsules read exactly as expected. */
  lemma InterruptedShows(env: Env, st: Store, f: multiset<SegmentId>, w: Work, view: map<CapsuleId, Entry>, k: nat)
    requires Possible(env, w) && SoundCipher(env) && CollisionFree(env)
    requires Inv(env, st, f) && Room(st.log, ChunkCount(w)) && Shows(env, st, view)
    ensures Shows(env, Interrupted(env, st, w, k), Expected(env, st, view, w, k))
  {
    hide SoundCipher, CollisionFree, Inv, Shows, Chunks, Run, SyncWrite, AsyncWrite.AsyncWrite, Delete, Sealed, FaithfulFeeds,
         Faithful, Prepare, Refs, Arrivals, Decoded, Flatten;
    var m := Min(k, |ProgramOf(env, st, w).steps|);
    match w {
      case SyncWork(cid, data, policy, keys, devices) =>
        var feeds := FeedsOf(env, data, policy, keys, devices);
        ResultsSound(env, data, policy, keys);
        FeedsFaithful(env, w);
        SyncWriteShows(env, st, f, cid, |data|, policy, feeds, Decoded(env, w), view, m);
      case AsyncWork(cid, data, policy, keys, arrivals, device) =>
        AsyncShows(env, st, f, w, view, m);
      case DeleteWork(cid) =>
        DeleteShows(env, st, f, cid, view, m);
        DeleteOfNothing(env, st, cid, view);
    }
  }

  lemma DeleteOfNothing(env: Env, st: Store, cid: CapsuleId, view: map<CapsuleId, Entry>)
    requires Shows(env, st, view)
    ensures |Delete(st, cid).steps| == 0 ==> view - {cid} == view
  {
  }

  lemma FeedsFaithful(env: Env, w: Work)
    requires SoundCipher(env) && w.SyncWork?
    ensures FaithfulFeeds(env, w.policy.compression, FeedsOf(env, w.data, w.policy, w.keys, w.devices), Decoded(env, w))
  {
    hide SoundCipher, Faithful, Chunks, Prepare, Decoded;
    ResultsFaithful(env, w);
  }

  lemma AsyncShows(env: Env, st: Store, f: multiset<SegmentId>, w: Work, view: map<CapsuleId, Entry>, k: nat)
    requires w.AsyncWork? && Possible(env, w) && SoundCipher(env) && CollisionFree(env)
    requires Inv(env, st, f) && Room(st.log, ChunkCount(w)) && Shows(env, st, view)
    requires k <= |ProgramOf(env, st, w).steps|
    ensures Shows(env, Run(st, ProgramOf(env, st, w).steps[..k]), Expected(env, st, view, w, k))
  {
    hide SoundCipher, CollisionFree, Decoded, Flatten, Inv, Shows, Chunks, Run, AsyncWrite.AsyncWrite, Sealed, Prepare, Refs, Arrivals, Leads,
         Landed, LandedSteps, CommitLoop, Complete, Restored, Truncated, FlightInv;
    var p, results := ProgramOf(env, st, w), Results(env, w.data, w.policy, w.keys);
    ResultsSound(env, w.data, w.policy, w.keys);
    if results == [] {
      AsyncEmptyShows(env, st, f, w, view, k);
    } else if p.outcome.Err? {
      AsyncFailureExact(env, st, f, w.cid, |w.data|, w.policy, results, w.arrivals, w.device);
      LeadsPrefixShows(env, st, f, p.steps, Run(st, p.steps), HeldAtEnd(st, f, w.cid, w.policy, results, w.arrivals, w.device), view, k);
    } else {
      AsyncSuccess(env, st, f, w.cid, |w.data|, w.policy, results, w.arrivals, w.device);
      FlightOfOk(env, st, f, w.policy.dedupe, results, w.arrivals);
      var fl := FlightOf(st, w.policy.dedupe, results, w.arrivals);
      LandedLeads(env, st, f, w.policy.dedupe, fl);
      if k < |p.steps| {
        assert p.steps[..k] == LandedSteps(fl)[..k];
        LeadsPrefixShows(env, st, f, LandedSteps(fl), Landed(fl), f + multiset(fl.ids), view, k);
      } else {
        assert p.steps[..k] == p.steps;
        AsyncCreateShows(env, st, f, w, view);
      }
    }
  }

  lemma AsyncEmptyShows(env: Env, st: Store, f: multiset<SegmentId>, w: Work, view: map<CapsuleId, Entry>, k: nat)
    requires w.AsyncWork? && Possible(env, w) && Results(env, w.data, w.policy, w.keys) == []
    requires Inv(env, st, f) && Shows(env, st, view) && k <= |ProgramOf(env, st, w).steps|
    ensures Shows(env, Run(st, ProgramOf(env, st, w).steps[..k]), Expected(env, st, view, w, k))
  {
    hide Inv, Shows, Prepare, Takes, Refs, Allowed;
    ChunksPartition(w.data);
    var p, c := ProgramOf(env, st, w), Capsule(0, [], w.policy);
    EmptyStored(env, w);
    if k == 1 {
      EmptyCreateAllowed(env, st, f, w.cid, c);
      CreateShows(env, st, f, w.cid, c, [], view);
      assert p.steps[..k] == [CreateStep(w.cid, c)];
      RunOne(st, CreateStep(w.cid, c));
    } else {
      assert p.steps[..k] == [];
    }
  }

  lemma EmptyStored(env: Env, w: Work)
    requires !w.DeleteWork? && w.data == []
    ensures Stored(env, w) == []
  {
  }

  lemma EmptyCreateAllowed(env: Env, st: Store, f: multiset<SegmentId>, cid: CapsuleId, c: Capsule)
    requires cid !in st.reg.capsules && c.segments == []
    ensures Allowed(env, st, f, CreateStep(cid, c)) && ReadSegments(env, st.log, c.policy.compression, c.segments) == Ok([])
  {
  }

  /** The landed flight's segment list reads the data: it reads like the sequential loop's. */
  lemma AsyncCreateShows(env: Env, st: Store, f: multiset<SegmentId>, w: Work, view: map<CapsuleId, Entry>)
    requires w.AsyncWork? && Possible(env, w) && SoundCipher(env) && CollisionFree(env)
    requires Inv(env, st, f) && Room(st.log, ChunkCount(w)) && Shows(env, st, view)
    requires Results(env, w.data, w.policy, w.keys) != [] && ProgramOf(env, st, w).outcome.Ok?
    ensures Shows(env, Run(st, ProgramOf(env, st, w).steps), view[w.cid := Entry(Stored(env, w), |w.data|)])
  {
    hide SoundCipher, CollisionFree, Decoded, Flatten, Inv, Shows, Chunks, Run, AsyncWrite.AsyncWrite, Sealed, Prepare, Refs, Arrivals, Leads,
         Landed, LandedSteps, CommitLoop, Complete, FlightInv, Allowed, Takes, WriteLoop, ReadSegments;
    var results := Results(env, w.data, w.policy, w.keys);
    ResultsSound(env, w.data, w.policy, w.keys);
    AsyncSuccess(env, st, f, w.cid, |w.data|, w.policy, results, w.arrivals, w.device);
    FlightOfOk(env, st, f, w.policy.dedupe, results, w.arrivals);
    var fl := FlightOf(st, w.policy.dedupe, results, w.arrivals);
    var c := Capsule(|w.data|, fl.ids, w.policy);
    LandedLeads(env, st, f, w.policy.dedupe, fl);
    LandedReadsData(env, st, f, w);
    CreateLands(env, st, f, w.policy.dedupe, fl, w.cid, c);
    LeadsShows(env, st, f, LandedSteps(fl), Landed(fl), f + multiset(fl.ids), view);
    CreateShows(env, Landed(fl), f + multiset(fl.ids), w.cid, c, Stored(env, w), view);
    TakesRun(env, st, f, LandedSteps(fl) + [CreateStep(w.cid, c)], Do(Landed(fl), CreateStep(w.cid, c)), f);
  }

  lemma LeadsShows(env: Env, st: Store, f: multiset<SegmentId>, steps: seq<Step>, st1: Store, f1: multiset<SegmentId>, view: map<CapsuleId, Entry>)
    requires Inv(env, st, f) && Leads(env, st, f, steps, st1, f1) && Shows(env, st, view)
    ensures Shows(env, st1, view)
  {
    hide Inv, Shows, AllAllowed, Run, HeldAfter;
    QuietShows(env, st, f, steps, view);
  }

  lemma LandedReadsData(env: Env, st: Store, f: multiset<SegmentId>, w: Work)
    requires w.AsyncWork? && Possible(env, w) && SoundCipher(env) && CollisionFree(env)
    requires Inv(env, st, f) && Room(st.log, ChunkCount(w))
    requires Complete(Results(env, w.data, w.policy, w.keys), w.arrivals)
    ensures var fl := FlightOf(st, w.policy.dedupe, Results(env, w.data, w.policy, w.keys), w.arrivals);
            ReadSegments(env, Landed(fl).log, w.policy.compression, fl.ids) == Ok(Stored(env, w))
  {
    hide SoundCipher, CollisionFree, Decoded, Flatten, Inv, Chunks, Sealed, Prepare, Refs, Arrivals, Landed, CommitLoop, Complete, WriteLoop, ReadSegments, Faithful;
    var results, c := Results(env, w.data, w.policy, w.keys), w.policy.compression;
    ResultsSound(env, w.data, w.policy, w.keys);
    ResultsFaithful(env, w);
    CompleteValues(env, st, w);
    var preps := Values(results);
    LandedReads(env, st, f, w.policy.dedupe, preps);
    WriteLoopReads(env, st, f, w.policy.dedupe, Feeds(preps), c, Decoded(env, w));
    var r, fl := WriteLoop(st, w.policy.dedupe, Feeds(preps)), CommitLoop(st, w.policy.dedupe, preps);
    assert ReadSegments(env, Landed(fl).log, c, fl.ids) == ReadSegments(env, r.st.log, c, fl.ids);
  }

  // ---------------------------------------------------------------- histories

  predicate PossibleEvent(env: Env, e: Event) { e.Collected? || Possible(env, e.work) }

  function Cost(e: Event): nat { if e.Collected? then 0 else ChunkCount(e.work) }

  function Costs(es: seq<Event>): nat {
    if es == [] then 0 else Costs(es[..|es| - 1]) + Cost(es[|es| - 1])
  }

  predicate PossibleHistory(env: Env, es: seq<Event>) {
    forall i :: 0 <= i < |es| ==> PossibleEvent(env, es[i])
  }

  ghost function AfterAll(env: Env, st: Store, es: seq<Event>): Store
    requires PossibleHistory(env, es)
  {
    if es == [] then st else After(env, AfterAll(env, st, es[..|es| - 1]), es[|es| - 1])
  }

  ghost function ExpectedAll(env: Env, st: Store, view: map<CapsuleId, Entry>, es: seq<Event>): map<CapsuleId, Entry>
    requires PossibleHistory(env, es)
  {
    if es == [] then view
    else
      var before := es[..|es| - 1];
      ExpectedAfter(env, AfterAll(env, st, before), ExpectedAll(env, st, view, before), es[|es| - 1])
  }

  /** Before every event of the history each stored count has room for the chunks that the event writes. */
  ghost predicate Roomy(env: Env, st: Store, es: seq<Event>)
    requires PossibleHistory(env, es)
  {
    forall i :: 0 <= i < |es| ==> Room(AfterAll(env, st, es[..i]).log, Cost(es[i]))
  }

  lemma RoomyPrefix(env: Env, st: Store, es: seq<Event>)
    requires PossibleHistory(env, es) && Roomy(env, st, es) && es != []
    ensures var n := |es| - 1; Roomy(env, st, es[..n]) && Room(AfterAll(env, st, es[..n]).log, Cost(es[n]))
  {
    var n := |es| - 1;
    forall i | 0 <= i < n ensures Room(AfterAll(env, st, es[..n][..i]).log, Cost(es[..n][i])) {
      assert es[..n][..i] == es[..i];
    }
  }

  lemma WorkFinishes(env: Env, st: Store, f: multiset<SegmentId>, w: Work) returns (f': multiset<SegmentId>)
    requires Possible(env, w) && SoundCipher(env) && Inv(env, st, f) && Room(st.log, ChunkCount(w))
    ensures Finishes(env, st, f, w, f')
  {
    hide Inv, Finishes, SoundCipher, Refs, Arrivals, Chunks, Prepare;
    match w {
      case SyncWork(_, _, _, _, _) => f' := SyncFinishes(env, st, f, w);
      case AsyncWork(_, _, _, _, _, _) => f' := AsyncFinishes(env, st, f, w);
      case DeleteWork(_) => DeleteFinishes(env, st, f, w); f' := f;
    }
  }

  /** Stopped anywhere, the operation has left a state that only holds too much. */
  lemma InterruptedInv(env: Env, st: Store, f: multiset<SegmentId>, w: Work, k: nat) returns (f': multiset<SegmentId>)
    requires Possible(env, w) && SoundCipher(env) && Inv(env, st, f) && Room(st.log, ChunkCount(w))
    ensures Inv(env, Interrupted(env, st, w, k), f')
  {
    hide Inv, SoundCipher, Refs, Arrivals, Chunks, Prepare, AllAllowed, HeldAfter, Run, SyncWrite, AsyncWrite.AsyncWrite, Delete, NoZero;
    var f1 := WorkFinishes(env, st, f, w);
    var steps := ProgramOf(env, st, w).steps;
    var m := Min(k, |steps|);
    AllowedPrefix(env, st, f, steps, m);
    ProgramKeepsInv(env, st, f, steps[..m]);
    f' := HeldAfter(st, f, steps[..m]);
  }

  /** The capsules an interrupted operation has persisted name no more references than it may make. */
  lemma InterruptedCapsules(env: Env, st: Store, f: multiset<SegmentId>, w: Work, k: nat)
    requires Possible(env, w) && SoundCipher(env) && Inv(env, st, f) && Room(st.log, ChunkCount(w))
    ensures |Refs(Interrupted(env, st, w, k).reg.capsules)| <= |Refs(st.reg.capsules)| + |f| + ChunkCount(w)
  {
    hide Inv, SoundCipher, Refs, Arrivals, Chunks, Prepare, AllAllowed, HeldAfter, NoZero, SyncWrite, AsyncWrite.AsyncWrite, Delete;
    var f1 := WorkFinishes(env, st, f, w);
    var steps := ProgramOf(env, st, w).steps;
    var m := Min(k, |steps|);
    if m == |steps| {
      assert steps[..m] == steps;
    } else {
      ProgramShape(env, st, f, w);
      if w.DeleteWork? {
        if m > 0 {
          assert steps[..m][0] == steps[0];
          DropThenQuiet(st, steps[..m], w.cid);
          RefsSplit(st.reg.capsules, w.cid);
        }
      } else {
        QuietCapsules(st, steps[..m]);
      }
    }
  }

  /** Only the last step of a write and the first of a delete touch capsules. */
  lemma ProgramShape(env: Env, st: Store, f: multiset<SegmentId>, w: Work)
    requires Possible(env, w) && SoundCipher(env) && Inv(env, st, f) && Room(st.log, ChunkCount(w))
    ensures var steps := ProgramOf(env, st, w).steps;
            if w.DeleteWork? then steps == [] || (steps[0] == DropStep(w.cid) && w.cid in st.reg.capsules && Quiet(steps[1..]))
            else (forall k :: 0 <= k < |steps| ==> Quiet(steps[..k])) && forall s :: s in steps ==> !s.DropStep?
  {
    hide Inv, SoundCipher, Refs, Arrivals, Chunks, Prepare, AllAllowed, HeldAfter, NoZero, Sealed, Takes, CommitLoop, Landed, LandedSteps,
         AsyncWrite.AsyncWrite, Restored, Truncated, FlightInv, WriteLoop, ReleaseLoop;
    match w {
      case SyncWork(cid, data, policy, keys, devices) =>
        ResultsSound(env, data, policy, keys);
        WriteLoopOk(env, st, f, policy.dedupe, FeedsOf(env, data, policy, keys, devices));
      case AsyncWork(cid, data, policy, keys, arrivals, device) =>
        AsyncShape(env, st, f, w);
      case DeleteWork(cid) =>
        if cid in st.reg.capsules {
          DropHolds(env, st, f, cid);
          ReleaseLoopOk(env, Do(st, DropStep(cid)), f + multiset(st.reg.capsules[cid].segments), st.reg.capsules[cid].segments);
          assert Delete(st, cid).steps[1..] == ReleaseLoop(Do(st, DropStep(cid)), st.reg.capsules[cid].segments).steps;
        }
    }
  }

  lemma DropHolds(env: Env, st: Store, f: multiset<SegmentId>, cid: CapsuleId)
    requires Inv(env, st, f) && cid in st.reg.capsules
    ensures Inv(env, Do(st, DropStep(cid)), f + multiset(st.reg.capsules[cid].segments))
  {
    hide Inv;
    StepKeepsInv(env, st, f, DropStep(cid));
  }

  lemma AsyncShape(env: Env, st: Store, f: multiset<SegmentId>, w: Work)
    requires w.AsyncWork? && Possible(env, w) && SoundCipher(env) && Inv(env, st, f) && Room(st.log, ChunkCount(w))
    ensures var steps := ProgramOf(env, st, w).steps;
            (forall k :: 0 <= k < |steps| ==> Quiet(steps[..k])) && forall s :: s in steps ==> !s.DropStep?
  {
    hide Inv, SoundCipher, Refs, Arrivals, Chunks, Prepare, Takes, CommitLoop, Landed, LandedSteps, Sealed,
         AsyncWrite.AsyncWrite, Restored, Truncated, FlightInv, Complete;
    var p, results := ProgramOf(env, st, w), Results(env, w.data, w.policy, w.keys);
    ResultsSound(env, w.data, w.policy, w.keys);
    if results == [] {
      assert w.data == [] by { ChunksPartition(w.data); }
      EmptyWriteOk(env, st, f, w.cid, w.policy, w.arrivals, w.device);
      assert |p.steps| <= 1;
    } else if p.outcome.Err? {
      AsyncFailureExact(env, st, f, w.cid, |w.data|, w.policy, results, w.arrivals, w.device);
    } else {
      AsyncSuccess(env, st, f, w.cid, |w.data|, w.policy, results, w.arrivals, w.device);
      FlightOfOk(env, st, f, w.policy.dedupe, results, w.arrivals);
      var fl := FlightOf(st, w.policy.dedupe, results, w.arrivals);
      LandedLeads(env, st, f, w.policy.dedupe, fl);
      forall k | 0 <= k < |p.steps| ensures p.steps[..k] == LandedSteps(fl)[..k] {
      }
    }
  }

  lemma {:induction false} DropThenQuiet(st: Store, steps: seq<Step>, cid: CapsuleId)
    requires steps != [] && steps[0] == DropStep(cid) && Quiet(steps[1..]) && cid in st.reg.capsules
    ensures Run(st, steps).reg.capsules == st.reg.capsules - {cid}
  {
    assert steps == [DropStep(cid)] + steps[1..];
    RunConcat(st, [DropStep(cid)], steps[1..]);
    RunOne(st, DropStep(cid));
    QuietCapsules(Do(st, DropStep(cid)), steps[1..]);
  }

  /** One event keeps the counts exact, leaves no dead segment, and conserves the references, whatever the data. */
  lemma EventKeepsInv(env: Env, st: Store, f: multiset<SegmentId>, e: Event) returns (f': multiset<SegmentId>)
    requires PossibleEvent(env, e) && SoundCipher(env)
    requires Inv(env, st, f) && NoZero(st.log) && Room(st.log, Cost(e))
    ensures Inv(env, After(env, st, e), f') && NoZero(After(env, st, e).log)
    ensures Conserved(st, f, After(env, st, e), f', Cost(e))
  {
    hide Inv, SoundCipher, Possible, NoZero, Reconciled, Opened, Swept, Refs, ProgramOf, CapsuleBytes;
    match e {
      case Done(w) =>
        f' := WorkFinishes(env, st, f, w);
      case Crashed(w, k) =>
        var f1 := InterruptedInv(env, st, f, w, k);
        InterruptedCapsules(env, st, f, w, k);
        CrashCleans(env, Interrupted(env, st, w, k), f1);
        f' := multiset{};
      case Collected =>
        SweepIdle(st);
        f' := f;
    }
  }

  /** ... and the abstract store. */
  lemma EventOk(env: Env, st: Store, f: multiset<SegmentId>, view: map<CapsuleId, Entry>, e: Event) returns (f': multiset<SegmentId>)
    requires PossibleEvent(env, e) && SoundCipher(env) && CollisionFree(env)
    requires Inv(env, st, f) && NoZero(st.log) && Shows(env, st, view) && Room(st.log, Cost(e))
    ensures Inv(env, After(env, st, e), f') && NoZero(After(env, st, e).log)
    ensures Shows(env, After(env, st, e), ExpectedAfter(env, st, view, e))
    ensures Conserved(st, f, After(env, st, e), f', Cost(e))
  {
    hide Inv, SoundCipher, CollisionFree, Possible, Shows, NoZero, Reconciled, Opened, Swept, Refs, ProgramOf, Expected;
    f' := EventKeepsInv(env, st, f, e);
    match e {
      case Done(w) =>
        var n := |ProgramOf(env, st, w).steps|;
        InterruptedShows(env, st, f, w, view, n);
        assert ProgramOf(env, st, w).steps[..n] == ProgramOf(env, st, w).steps;
      case Crashed(w, k) =>
        var f1 := InterruptedInv(env, st, f, w, k);
        InterruptedShows(env, st, f, w, view, k);
        CrashRecovers(env, Interrupted(env, st, w, k), f1, Expected(env, st, view, w, k));
      case Collected =>
        SweepIdle(st);
    }
  }

  /** Over every history: counts stay exact up to what failed writes hold, no dead segment appears, and what
      the capsules read is the abstract store that the same history gives, whatever the data. */
  lemma {:induction false} HistoryCorrect(env: Env, st: Store, f: multiset<SegmentId>, view: map<CapsuleId, Entry>, es: seq<Event>)
    returns (f': multiset<SegmentId>)
    requires PossibleHistory(env, es)
    requires SoundCipher(env) && CollisionFree(env)
    requires Inv(env, st, f) && NoZero(st.log) && Shows(env, st, view) && Roomy(env, st, es)
    ensures Inv(env, AfterAll(env, st, es), f') && NoZero(AfterAll(env, st, es).log)
    ensures Shows(env, AfterAll(env, st, es), ExpectedAll(env, st, view, es))
    ensures Conserved(st, f, AfterAll(env, st, es), f', Costs(es))
  {
    hide Inv, SoundCipher, CollisionFree, PossibleEvent, Shows, NoZero, After, ExpectedAfter, Refs, Room, Roomy;
    if es == [] {
      f' := f;
    } else {
      var n := |es| - 1;
      RoomyPrefix(env, st, es);
      var f1 := HistoryCorrect(env, st, f, view, es[..n]);
      f' := EventOk(env, AfterAll(env, st, es[..n]), f1, ExpectedAll(env, st, view, es[..n]), es[n]);
    }
  }

  /** A freshly opened store, with both files empty, is clean and shows nothing. */
  lemma EmptyStoreClean(env: Env)
    ensures var st := Store(Log([], map[], 0), Catalog(map[], map[], 0, 0)); Clean(env, st) && Shows(env, st, map[])
  {
  }
}
