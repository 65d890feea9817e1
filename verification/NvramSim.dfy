/** The append-only log: its value-level operations, the invariant of its allocator, and the classes
    `NvramLog` and `NvramTransaction`, each method of which is one of those operations. */
module NvramSim {
  import opened Types

  /** `file` is the log file, `segs` the segment map (saved on every change), `next` the allocator. */
  datatype Log = Log(file: Bytes, segs: map<SegmentId, Segment>, next: nat)

  datatype Pending = Pending(segment: Segment, data: Bytes)

  datatype Txn = Txn(pending: seq<Pending>, base: nat, cur: nat, finalized: bool)

  // ---------------------------------------------------------------- the file

  /** seek + write_all: a gap past the end of the file is zero-filled. */
  function WriteAt(file: Bytes, off: nat, data: Bytes): Bytes {
    if data == [] then file
    else
      var padded := if |file| < off then file + seq(off - |file|, _ => 0) else file;
      padded[..off] + data + (if off + |data| < |padded| then padded[off + |data|..] else [])
  }

  /** seek + read_exact */
  function ReadAt(file: Bytes, off: nat, len: nat): Option<Bytes> {
    if len == 0 then Some([])
    else if off + len <= |file| then Some(file[off..off + len])
    else None
  }

  lemma WriteAtReads(file: Bytes, off: nat, data: Bytes)
    ensures ReadAt(WriteAt(file, off, data), off, |data|) == Some(data)
    ensures data != [] ==> off + |data| <= |WriteAt(file, off, data)|
    ensures |file| <= |WriteAt(file, off, data)|
  {
    if data != [] {
      assert WriteAt(file, off, data)[off..off + |data|] == data;
    }
  }

  lemma WriteAtKeeps(file: Bytes, off: nat, data: Bytes, o: nat, l: nat)
    requires l > 0 ==> (o + l <= off || off + |data| <= o) && o + l <= |file|
    ensures ReadAt(WriteAt(file, off, data), o, l) == ReadAt(file, o, l)
  {
    if data != [] && l > 0 {
      assert WriteAt(file, off, data)[o..o + l] == file[o..o + l];
    }
  }

  // ---------------------------------------------------------------- segments

  function FreshSegment(id: SegmentId, off: nat, len: nat): Segment {
    Segment(id, off, AsU32(len), false, Unlabelled, None, 1, false, 0, None)
  }

  function Incremented(s: Segment): Segment {
    s.(refCount := SatInc(s.refCount), deduplicated := SatInc(s.refCount) > 1, accessCount := SatInc(s.accessCount))
  }

  function Decremented(s: Segment): Segment
    requires s.refCount > 0
  {
    s.(refCount := s.refCount - 1, deduplicated := s.refCount - 1 > 1)
  }

  /** The closure of `with_segment_mut` on a staged dedup hit: like an increment, without the access count. */
  function Restaged(s: Segment): Segment {
    s.(refCount := SatInc(s.refCount), deduplicated := SatInc(s.refCount) > 1)
  }

  function RawOf(l: Log, id: SegmentId): Option<Bytes>
    requires id in l.segs
  {
    ReadAt(l.file, l.segs[id].offset, l.segs[id].len)
  }

  // ---------------------------------------------------------------- operations on the log

  function Append(l: Log, id: SegmentId, data: Bytes): Log {
    Log(WriteAt(l.file, l.next, data), l.segs[id := FreshSegment(id, l.next, |data|)], l.next + |data|)
  }

  function Increment(l: Log, id: SegmentId): Log {
    if id in l.segs then l.(segs := l.segs[id := Incremented(l.segs[id])]) else l
  }

  function Decrement(l: Log, id: SegmentId): Log {
    if id in l.segs && l.segs[id].refCount > 0 then l.(segs := l.segs[id := Decremented(l.segs[id])]) else l
  }

  function Remove(l: Log, id: SegmentId): Log {
    l.(segs := l.segs - {id})
  }

  function Update(l: Log, id: SegmentId, s: Segment): Log {
    l.(segs := l.segs[id := s])
  }

  /** Opening a log file: the allocator restarts at the end of the file. */
  function Reopened(l: Log): Log { l.(next := |l.file|) }

  // ---------------------------------------------------------------- operations on a transaction

  function Begin(l: Log): Txn { Txn([], l.next, l.next, false) }

  function Stage(t: Txn, id: SegmentId, data: Bytes): Txn {
    t.(pending := t.pending + [Pending(FreshSegment(id, t.cur, |data|), data)], cur := t.cur + |data|)
  }

  /** The index of the first pending entry for `id`. */
  function Find(pending: seq<Pending>, id: SegmentId): (r: Option<nat>)
    ensures r.Some? ==> r.value < |pending| && pending[r.value].segment.id == id
    ensures r.Some? ==> forall i :: 0 <= i < r.value ==> pending[i].segment.id != id
    ensures r.None? ==> forall i :: 0 <= i < |pending| ==> pending[i].segment.id != id
  {
    if pending == [] then None
    else match Find(pending[..|pending| - 1], id)
         case Some(i) => Some(i)
         case None => if pending[|pending| - 1].segment.id == id then Some(|pending| - 1) else None
  }

  function Revise(t: Txn, id: SegmentId, s: Segment): Txn {
    match Find(t.pending, id)
    case None => t
    case Some(i) => t.(pending := t.pending[i := t.pending[i].(segment := s)])
  }

  function WriteAll(file: Bytes, pending: seq<Pending>): Bytes {
    if pending == [] then file
    else
      var e := pending[|pending| - 1];
      WriteAt(WriteAll(file, pending[..|pending| - 1]), e.segment.offset, e.data)
  }

  /** The file after a commit that failed: some entries written, then a piece of the next one. */
  function WriteTorn(file: Bytes, pending: seq<Pending>, entries: nat, bytes: nat): Bytes {
    if entries >= |pending| then WriteAll(file, pending)
    else
      var e := pending[entries];
      WriteAt(WriteAll(file, pending[..entries]), e.segment.offset, e.data[..Min(bytes, |e.data|)])
  }

  function PendingMap(pending: seq<Pending>): map<SegmentId, Segment> {
    if pending == [] then map[]
    else
      var e := pending[|pending| - 1];
      PendingMap(pending[..|pending| - 1])[e.segment.id := e.segment]
  }

  function Committed(l: Log, t: Txn): Log {
    if t.pending == [] then l
    else Log(WriteAll(l.file, t.pending), l.segs + PendingMap(t.pending), t.cur)
  }

  // ---------------------------------------------------------------- the allocator's invariant

  predicate Apart(a: Segment, b: Segment) {
    a.len > 0 && b.len > 0 ==> a.offset + a.len <= b.offset || b.offset + b.len <= a.offset
  }

  /** Segment `s` lies below `next`, inside the file. */
  predicate Placed(file: Bytes, next: nat, s: Segment) {
    s.len > 0 ==> s.offset + s.len <= next && s.offset + s.len <= |file|
  }

  /** Every live segment ends at or before `off`. */
  predicate Clear(l: Log, off: nat) {
    forall id :: id in l.segs && l.segs[id].len > 0 ==> l.segs[id].offset + l.segs[id].len <= off
  }

  predicate LogOk(l: Log) {
    && (forall id :: id in l.segs ==> l.segs[id].id == id && Placed(l.file, l.next, l.segs[id]))
    && (forall i, j :: i in l.segs && j in l.segs && i != j ==> Apart(l.segs[i], l.segs[j]))
  }

  /** `id` still names the same byte range, encryption and bytes. */
  predicate Kept(l: Log, l': Log, id: SegmentId)
    requires id in l.segs
  {
    && id in l'.segs
    && l'.segs[id].offset == l.segs[id].offset
    && l'.segs[id].len == l.segs[id].len
    && l'.segs[id].encryption == l.segs[id].encryption
    && RawOf(l', id) == RawOf(l, id)
  }

  /** Writing at or past every live segment's end disturbs none of them. */
  lemma WriteKeeps(l: Log, off: nat, data: Bytes, next: nat)
    requires LogOk(l)
    requires Clear(l, off) && Clear(l, next)
    ensures var l' := Log(WriteAt(l.file, off, data), l.segs, next);
            LogOk(l') && forall id :: id in l.segs ==> Kept(l, l', id)
  {
    var l' := Log(WriteAt(l.file, off, data), l.segs, next);
    WriteAtReads(l.file, off, data);
    forall id | id in l.segs ensures Kept(l, l', id) {
      WriteAtKeeps(l.file, off, data, l.segs[id].offset, l.segs[id].len);
    }
  }

  /** Append keeps the allocator's invariant and every other segment, and the new segment reads back
      what was appended exactly when its length fits the 32-bit length field. */
  lemma AppendOk(l: Log, id: SegmentId, data: Bytes)
    requires LogOk(l) && id !in l.segs
    ensures LogOk(Append(l, id, data)) && id in Append(l, id, data).segs
    ensures forall j :: j in l.segs ==> Kept(l, Append(l, id, data), j)
    ensures RawOf(Append(l, id, data), id) == Some(data) <==> |data| <= U32_MAX
  {
    var l' := Append(l, id, data);
    WriteKeeps(l, l.next, data, l.next + |data|);
    WriteAtReads(l.file, l.next, data);
    var mid := Log(WriteAt(l.file, l.next, data), l.segs, l.next + |data|);
    forall j | j in l.segs ensures Kept(l, l', j) { assert Kept(l, mid, j); }
    if RawOf(l', id) == Some(data) {
      assert |RawOf(l', id).value| == AsU32(|data|);
    }
  }

  // ---------------------------------------------------------------- transactions

  /** What one exclusive writer keeps between begin and commit, relative to the log at begin. */
  predicate Staged(l: Log, t: Txn) {
    && !t.finalized && t.base <= t.cur
    && Clear(l, t.base)
    && StagedRanges(t.pending, t.base, t.cur)
    && (forall i :: 0 <= i < |t.pending| ==> t.pending[i].segment.id !in l.segs)
  }

  predicate StagedRanges(pending: seq<Pending>, base: nat, cur: nat) {
    && (forall i :: 0 <= i < |pending| ==>
          && base <= pending[i].segment.offset
          && pending[i].segment.offset + |pending[i].data| <= cur
          && pending[i].segment.len == |pending[i].data|)
    && (forall i, j :: 0 <= i < j < |pending| ==> pending[i].segment.offset + |pending[i].data| <= pending[j].segment.offset)
    && (forall i, j :: 0 <= i < j < |pending| ==> pending[i].segment.id != pending[j].segment.id)
  }

  /** Staging keeps the transaction in order exactly when the length fits the 32-bit length field. */
  lemma StageKeepsIff(l: Log, t: Txn, id: SegmentId, data: Bytes)
    requires Staged(l, t) && id !in l.segs && Find(t.pending, id).None?
    ensures Staged(l, Stage(t, id, data)) <==> |data| <= U32_MAX
  {
    var t', n := Stage(t, id, data), |t.pending|;
    assert t'.pending[n].segment == FreshSegment(id, t.cur, |data|);
    if |data| <= U32_MAX {
      forall i | 0 <= i < n ensures t'.pending[i] == t.pending[i] {}
    }
  }

  lemma {:induction false} PendingMapContents(pending: seq<Pending>)
    requires forall i, j :: 0 <= i < j < |pending| ==> pending[i].segment.id != pending[j].segment.id
    ensures forall i :: 0 <= i < |pending| ==>
      pending[i].segment.id in PendingMap(pending) && PendingMap(pending)[pending[i].segment.id] == pending[i].segment
    ensures forall id :: id in PendingMap(pending) <==> Find(pending, id).Some?
  {
    if pending != [] {
      PendingMapContents(pending[..|pending| - 1]);
    }
  }

  lemma {:induction false} PendingMapFinds(pending: seq<Pending>)
    requires forall i, j :: 0 <= i < j < |pending| ==> pending[i].segment.id != pending[j].segment.id
    ensures forall id :: id in PendingMap(pending) ==>
      Find(pending, id).Some? && pending[Find(pending, id).value].segment == PendingMap(pending)[id]
  {
    PendingMapContents(pending);
  }

  /** A prefix of the commit's writes: old segments are intact, the written ones read back. */
  lemma {:induction false} WriteAllReads(l: Log, t: Txn, n: nat)
    requires LogOk(l) && Staged(l, t) && n <= |t.pending|
    ensures |l.file| <= |WriteAll(l.file, t.pending[..n])|
    ensures forall id :: id in l.segs ==>
      ReadAt(WriteAll(l.file, t.pending[..n]), l.segs[id].offset, l.segs[id].len) == RawOf(l, id)
    ensures forall i :: 0 <= i < n ==>
      ReadAt(WriteAll(l.file, t.pending[..n]), t.pending[i].segment.offset, t.pending[i].segment.len) == Some(t.pending[i].data)
    ensures forall i :: 0 <= i < n ==> t.pending[i].data != [] ==>
      t.pending[i].segment.offset + t.pending[i].segment.len <= |WriteAll(l.file, t.pending[..n])|
  {
    if n > 0 {
      var prev := WriteAll(l.file, t.pending[..n - 1]);
      var e := t.pending[n - 1];
      WriteAllReads(l, t, n - 1);
      assert t.pending[..n][..n - 1] == t.pending[..n - 1];
      WriteAtReads(prev, e.segment.offset, e.data);
      forall id | id in l.segs
        ensures ReadAt(WriteAt(prev, e.segment.offset, e.data), l.segs[id].offset, l.segs[id].len) == RawOf(l, id)
      {
        WriteAtKeeps(prev, e.segment.offset, e.data, l.segs[id].offset, l.segs[id].len);
      }
      forall i | 0 <= i < n - 1
        ensures ReadAt(WriteAt(prev, e.segment.offset, e.data), t.pending[i].segment.offset, t.pending[i].segment.len) == Some(t.pending[i].data)
      {
        WriteAtKeeps(prev, e.segment.offset, e.data, t.pending[i].segment.offset, t.pending[i].segment.len);
      }
    }
  }

  /** A successful commit makes every staged segment readable, keeps the allocator's invariant and
      disturbs no earlier segment. */
  lemma CommitOk(l: Log, t: Txn)
    requires LogOk(l) && Staged(l, t)
    ensures LogOk(Committed(l, t).(next := t.cur))
    ensures forall id :: id in l.segs ==> Kept(l, Committed(l, t), id)
    ensures forall i :: 0 <= i < |t.pending| ==>
      var s := t.pending[i].segment;
      s.id in Committed(l, t).segs && Committed(l, t).segs[s.id] == s && RawOf(Committed(l, t), s.id) == Some(t.pending[i].data)
    ensures forall id :: id in Committed(l, t).segs <==> id in l.segs || Find(t.pending, id).Some?
  {
    if t.pending != [] {
      var l' := Committed(l, t);
      assert t.pending[..|t.pending|] == t.pending;
      WriteAllReads(l, t, |t.pending|);
      CommittedSegments(l, t);
      CommittedApart(l, t, l');
    }
  }

  lemma CommittedSegments(l: Log, t: Txn)
    requires Staged(l, t) && t.pending != []
    ensures forall id :: id in l.segs ==> id in Committed(l, t).segs && Committed(l, t).segs[id] == l.segs[id]
    ensures forall i :: 0 <= i < |t.pending| ==>
      t.pending[i].segment.id in Committed(l, t).segs && Committed(l, t).segs[t.pending[i].segment.id] == t.pending[i].segment
    ensures forall id :: id in Committed(l, t).segs <==> id in l.segs || Find(t.pending, id).Some?
    ensures forall id :: id in Committed(l, t).segs ==>
      (id in l.segs && Committed(l, t).segs[id] == l.segs[id]) || CommittedFrom(t.pending, id, Committed(l, t).segs[id])
  {
    PendingMapContents(t.pending);
    forall id | id in l.segs ensures Committed(l, t).segs[id] == l.segs[id] {
      assert Find(t.pending, id).None?;
    }
    forall id | id in Committed(l, t).segs && id !in l.segs ensures CommittedFrom(t.pending, id, Committed(l, t).segs[id]) {
      assert t.pending[Find(t.pending, id).value].segment == Committed(l, t).segs[id];
    }
  }

  predicate CommittedFrom(pending: seq<Pending>, id: SegmentId, s: Segment) {
    exists i :: 0 <= i < |pending| && pending[i].segment.id == id && pending[i].segment == s
  }

  lemma CommittedApart(l: Log, t: Txn, l': Log)
    requires LogOk(l) && Staged(l, t) && l'.next == t.cur && |l.file| <= |l'.file|
    requires forall id :: id in l'.segs ==> (id in l.segs && l'.segs[id] == l.segs[id]) || CommittedFrom(t.pending, id, l'.segs[id])
    requires forall i :: 0 <= i < |t.pending| && t.pending[i].data != [] ==>
      t.pending[i].segment.offset + t.pending[i].segment.len <= |l'.file|
    ensures LogOk(l')
  {
    forall i, j | i in l'.segs && j in l'.segs && i != j ensures Apart(l'.segs[i], l'.segs[j]) {
    }
  }

  /** A failed commit leaves no staged segment in the map and every earlier one intact. */
  lemma TornCommitKeeps(l: Log, t: Txn, entries: nat, bytes: nat, next: nat)
    requires LogOk(l) && Staged(l, t) && t.base <= next
    ensures var l' := Log(WriteTorn(l.file, t.pending, entries, bytes), l.segs, next);
            LogOk(l') && forall id :: id in l.segs ==> Kept(l, l', id)
  {
    var n := Min(entries, |t.pending|);
    WriteAllReads(l, t, n);
    assert t.pending[..|t.pending|] == t.pending;
    var l' := Log(WriteTorn(l.file, t.pending, entries, bytes), l.segs, next);
    if entries < |t.pending| {
      var e := t.pending[entries];
      var piece := e.data[..Min(bytes, |e.data|)];
      var prev := WriteAll(l.file, t.pending[..entries]);
      WriteAtReads(prev, e.segment.offset, piece);
      forall id | id in l.segs ensures Kept(l, l', id) {
        WriteAtKeeps(prev, e.segment.offset, piece, l.segs[id].offset, l.segs[id].len);
      }
    }
  }

  // ---------------------------------------------------------------- two transactions at a time

  /** No segment of one shares a byte with a segment of the other. */
  predicate RangesApart(t1: Txn, t2: Txn) {
    forall i, j :: 0 <= i < |t1.pending| && 0 <= j < |t2.pending| ==> Apart(t1.pending[i].segment, t2.pending[j].segment)
  }

  predicate IdsApart(t1: Txn, t2: Txn) {
    forall i, j :: 0 <= i < |t1.pending| && 0 <= j < |t2.pending| ==> t1.pending[i].segment.id != t2.pending[j].segment.id
  }

  predicate EndsBelow(t: Txn, n: nat) {
    forall i :: 0 <= i < |t.pending| && t.pending[i].segment.len > 0 ==> t.pending[i].segment.offset + t.pending[i].segment.len <= n
  }

  /** Transactions are not isolated from each other. Two that were staged side by side over one log leave it in order,
      committed one after the other, exactly if their byte ranges are disjoint and the allocator, which the last commit
      resets to its own end, ends above the first one's segments too. */
  lemma BothCommittedOkIff(l: Log, t1: Txn, t2: Txn)
    requires LogOk(l) && Staged(l, t1) && Staged(l, t2) && IdsApart(t1, t2)
    ensures LogOk(Committed(Committed(l, t1), t2)) <==> RangesApart(t1, t2) && (t2.pending == [] || EndsBelow(t1, t2.cur))
  {
    hide WriteAll, PendingMap, Find;
    var l1 := Committed(l, t1);
    var l2 := Committed(l1, t2);
    if t1.pending == [] || t2.pending == [] {
      CommitOk(l, t1);
      CommitOk(l, t2);
    } else {
      BothSegments(l, t1, t2);
      if LogOk(l2) {
        forall i, j | 0 <= i < |t1.pending| && 0 <= j < |t2.pending| ensures Apart(t1.pending[i].segment, t2.pending[j].segment) {
          assert Holds(l2.segs, t1.pending[i]) && Holds(l2.segs, t2.pending[j]);
        }
        forall i | 0 <= i < |t1.pending| ensures Placed(l2.file, l2.next, t1.pending[i].segment) {
          assert Holds(l2.segs, t1.pending[i]);
        }
      }
      if RangesApart(t1, t2) && EndsBelow(t1, t2.cur) { BothPlaced(l, t1, t2, l2); }
    }
  }

  lemma BothSegments(l: Log, t1: Txn, t2: Txn)
    requires LogOk(l) && Staged(l, t1) && Staged(l, t2) && IdsApart(t1, t2) && t1.pending != [] && t2.pending != []
    ensures var l2 := Committed(Committed(l, t1), t2);
            && l2.next == t2.cur && |l.file| <= |l2.file|
            && (forall i :: 0 <= i < |t1.pending| ==> Holds(l2.segs, t1.pending[i]))
            && (forall j :: 0 <= j < |t2.pending| ==> Holds(l2.segs, t2.pending[j]))
            && FromEither(l.segs, t1, t2, l2.segs)
            && InFile(t1.pending, |l2.file|) && InFile(t2.pending, |l2.file|)
  {
    hide PendingMap, Find, Staged, IdsApart, FromEither, Holds;
    WriteAllLong(l.file, t1.pending);
    WriteAllLong(Committed(l, t1).file, t2.pending);
    MapsMerge(l, t1, t2);
  }

  predicate Holds(segs: map<SegmentId, Segment>, e: Pending) { e.segment.id in segs && segs[e.segment.id] == e.segment }

  predicate FromEither(before: map<SegmentId, Segment>, t1: Txn, t2: Txn, segs: map<SegmentId, Segment>) {
    forall id :: id in segs ==>
      || (id in before && segs[id] == before[id])
      || CommittedFrom(t1.pending, id, segs[id]) || CommittedFrom(t2.pending, id, segs[id])
  }

  predicate InFile(pending: seq<Pending>, size: nat) {
    forall i :: 0 <= i < |pending| && pending[i].data != [] ==> pending[i].segment.offset + |pending[i].data| <= size
  }

  /** Where the entries of a pending map come from. */
  lemma PendingMapExact(pending: seq<Pending>)
    requires forall i, j :: 0 <= i < j < |pending| ==> pending[i].segment.id != pending[j].segment.id
    ensures forall i :: 0 <= i < |pending| ==> Holds(PendingMap(pending), pending[i])
    ensures forall id :: id in PendingMap(pending) ==> CommittedFrom(pending, id, PendingMap(pending)[id])
  {
    PendingMapContents(pending);
    hide PendingMap;
    forall id | id in PendingMap(pending) ensures CommittedFrom(pending, id, PendingMap(pending)[id]) {
      var i := Find(pending, id).value;
      assert pending[i].segment.id == id && pending[i].segment == PendingMap(pending)[id];
    }
  }

  lemma MapsMerge(l: Log, t1: Txn, t2: Txn)
    requires Staged(l, t1) && Staged(l, t2) && IdsApart(t1, t2)
    ensures var segs := l.segs + PendingMap(t1.pending) + PendingMap(t2.pending);
            && (forall i :: 0 <= i < |t1.pending| ==> Holds(segs, t1.pending[i]))
            && (forall j :: 0 <= j < |t2.pending| ==> Holds(segs, t2.pending[j]))
            && FromEither(l.segs, t1, t2, segs)
  {
    PendingMapExact(t1.pending);
    PendingMapExact(t2.pending);
    forall i | 0 <= i < |t1.pending| ensures t1.pending[i].segment.id !in PendingMap(t2.pending) {
      NotPending(t1, t2, i);
    }
    hide PendingMap, Staged, IdsApart, CommittedFrom;
  }

  lemma NotPending(t1: Txn, t2: Txn, i: nat)
    requires IdsApart(t1, t2) && i < |t1.pending|
    requires forall id :: id in PendingMap(t2.pending) ==> CommittedFrom(t2.pending, id, PendingMap(t2.pending)[id])
    ensures t1.pending[i].segment.id !in PendingMap(t2.pending)
  {
    hide PendingMap;
    var id := t1.pending[i].segment.id;
    assert forall s :: !CommittedFrom(t2.pending, id, s);
  }

  lemma BothPlaced(l: Log, t1: Txn, t2: Txn, l2: Log)
    requires LogOk(l) && Staged(l, t1) && Staged(l, t2) && RangesApart(t1, t2) && EndsBelow(t1, t2.cur)
    requires l2.next == t2.cur && |l.file| <= |l2.file| && FromEither(l.segs, t1, t2, l2.segs)
    requires InFile(t1.pending, |l2.file|) && InFile(t2.pending, |l2.file|)
    ensures LogOk(l2)
  {
    forall id | id in l2.segs ensures l2.segs[id].id == id && Placed(l2.file, l2.next, l2.segs[id]) {
    }
    forall i, j | i in l2.segs && j in l2.segs && i != j ensures Apart(l2.segs[i], l2.segs[j]) {
      hide Clear;
    }
  }

  /** Everything written lies inside the file afterwards. */
  lemma {:induction false} WriteAllLong(file: Bytes, pending: seq<Pending>)
    ensures |file| <= |WriteAll(file, pending)|
    ensures InFile(pending, |WriteAll(file, pending)|)
  {
    if pending != [] {
      var n := |pending| - 1;
      WriteAllLong(file, pending[..n]);
      WriteAtReads(WriteAll(file, pending[..n]), pending[n].segment.offset, pending[n].data);
    }
  }

  /** The byte at `p` belongs to the segment. */
  predicate Covers(e: Pending, p: nat) { e.segment.offset <= p < e.segment.offset + |e.data| }

  /** Where two segments share bytes, they agree on them. */
  ghost predicate SameBytes(a: Pending, b: Pending) {
    forall p: nat :: Covers(a, p) && Covers(b, p) ==> a.data[p - a.segment.offset] == b.data[p - b.segment.offset]
  }

  /** After both commits a segment of the first reads back what was staged exactly if the second wrote no different
      byte into its range. */
  lemma FirstReadsIff(l: Log, t1: Txn, t2: Txn, i: nat)
    requires LogOk(l) && Staged(l, t1) && Staged(l, t2) && IdsApart(t1, t2) && i < |t1.pending| && t2.pending != []
    ensures var l2, e := Committed(Committed(l, t1), t2), t1.pending[i];
            && e.segment.id in l2.segs
            && (RawOf(l2, e.segment.id) == Some(e.data) <==> forall j :: 0 <= j < |t2.pending| ==> SameBytes(e, t2.pending[j]))
  {
    hide PendingMap, Find, WriteAll, SameBytes, LogOk, FromEither;
    var l1, e := Committed(l, t1), t1.pending[i];
    MapsMerge(l, t1, t2);
    assert Holds(l.segs + PendingMap(t1.pending) + PendingMap(t2.pending), e);
    assert t1.pending[..|t1.pending|] == t1.pending && t2.pending[..|t2.pending|] == t2.pending;
    WriteAllReads(l, t1, |t1.pending|);
    OverwrittenIff(l1.file, t2, e);
  }

  /** The byte at `p` of the file is the one that `e` has for it. */
  predicate ByteIs(file: Bytes, e: Pending, p: nat) {
    Covers(e, p) ==> p < |file| && file[p] == e.data[p - e.segment.offset]
  }

  predicate Untouched(t: Txn, n: nat, p: nat)
    requires n <= |t.pending|
  {
    forall j :: 0 <= j < n ==> !Covers(t.pending[j], p)
  }

  /** The bytes of the file after the first `n` writes of `t`. */
  ghost predicate WrittenOk(file: Bytes, after: Bytes, t: Txn, n: nat)
    requires n <= |t.pending|
  {
    && |file| <= |after|
    && (forall p: nat :: p < |file| && Untouched(t, n, p) ==> after[p] == file[p])
    && forall j, p: nat :: 0 <= j < n ==> ByteIs(after, t.pending[j], p)
  }

  lemma {:induction false} WrittenBytes(file: Bytes, t: Txn, n: nat)
    requires StagedRanges(t.pending, t.base, t.cur) && n <= |t.pending|
    ensures WrittenOk(file, WriteAll(file, t.pending[..n]), t, n)
  {
    if n > 0 {
      WrittenBytes(file, t, n - 1);
      assert t.pending[..n][..n - 1] == t.pending[..n - 1];
      var before, after, e := WriteAll(file, t.pending[..n - 1]), WriteAll(file, t.pending[..n]), t.pending[n - 1];
      WriteAtBytes(before, e.segment.offset, e.data);
      hide WriteAt, WriteAll;
      forall p: nat | p < |file| && Untouched(t, n, p) ensures after[p] == file[p] {
        assert Untouched(t, n - 1, p) && !Covers(e, p);
      }
      forall j, p: nat | 0 <= j < n ensures ByteIs(after, t.pending[j], p) {
        if j < n - 1 { assert ByteIs(before, t.pending[j], p); }
      }
    }
  }

  /** A range of the file reads as `e` exactly if each of its bytes is there. */
  lemma ReadsIff(file: Bytes, e: Pending)
    requires e.segment.len == |e.data|
    ensures ReadAt(file, e.segment.offset, e.segment.len) == Some(e.data) <==> forall p: nat :: ByteIs(file, e, p)
  {
    var o, len := e.segment.offset, e.segment.len;
    if e.data != [] {
      if ReadAt(file, o, len) == Some(e.data) {
        forall p: nat ensures ByteIs(file, e, p) {
          if Covers(e, p) { assert file[o..o + len][p - o] == file[p]; }
        }
      }
      if forall p: nat :: ByteIs(file, e, p) {
        assert ByteIs(file, e, o + len - 1) && Covers(e, o + len - 1);
        forall k | 0 <= k < len ensures file[o..o + len][k] == e.data[k] {
          assert ByteIs(file, e, o + k) && Covers(e, o + k);
        }
        assert file[o..o + len] == e.data;
      }
    }
  }

  /** Reading a range after the writes of `t`. */
  lemma OverwrittenIff(file: Bytes, t: Txn, e: Pending)
    requires StagedRanges(t.pending, t.base, t.cur) && e.segment.len == |e.data|
    requires ReadAt(file, e.segment.offset, e.segment.len) == Some(e.data)
    ensures ReadAt(WriteAll(file, t.pending), e.segment.offset, e.segment.len) == Some(e.data)
      <==> forall j :: 0 <= j < |t.pending| ==> SameBytes(e, t.pending[j])
  {
    var after, n := WriteAll(file, t.pending), |t.pending|;
    assert t.pending[..n] == t.pending;
    WrittenBytes(file, t, n);
    ReadsIff(file, e);
    ReadsIff(after, e);
    hide WriteAll, StagedRanges, ReadAt, ByteIs, SameBytes, WrittenOk;
    if forall j :: 0 <= j < n ==> SameBytes(e, t.pending[j]) {
      forall p: nat ensures ByteIs(after, e, p) { ByteStays(file, after, t, n, e, p); }
    }
    if forall p: nat :: ByteIs(after, e, p) {
      forall j | 0 <= j < n ensures SameBytes(e, t.pending[j]) { BytesAgree(file, after, t, n, e, j); }
    }
  }

  lemma ByteStays(file: Bytes, after: Bytes, t: Txn, n: nat, e: Pending, p: nat)
    requires n <= |t.pending| && WrittenOk(file, after, t, n)
    requires ByteIs(file, e, p) && forall j :: 0 <= j < n ==> SameBytes(e, t.pending[j])
    ensures ByteIs(after, e, p)
  {
    if Covers(e, p) && !Untouched(t, n, p) {
      var j :| 0 <= j < n && Covers(t.pending[j], p);
      assert SameBytes(e, t.pending[j]) && ByteIs(after, t.pending[j], p);
    }
  }

  lemma BytesAgree(file: Bytes, after: Bytes, t: Txn, n: nat, e: Pending, j: nat)
    requires j < n <= |t.pending| && WrittenOk(file, after, t, n)
    requires forall p: nat :: ByteIs(after, e, p)
    ensures SameBytes(e, t.pending[j])
  {
    var f := t.pending[j];
    forall p: nat | Covers(e, p) && Covers(f, p) ensures e.data[p - e.segment.offset] == f.data[p - f.segment.offset] {
      assert ByteIs(after, e, p) && ByteIs(after, f, p);
    }
  }

  lemma WriteAtBytes(file: Bytes, off: nat, data: Bytes)
    ensures var after := WriteAt(file, off, data);
            && |file| <= |after| && (data != [] ==> off + |data| <= |after|)
            && (forall p: nat :: off <= p < off + |data| ==> after[p] == data[p - off])
            && (forall p: nat :: p < |file| && !(off <= p < off + |data|) ==> after[p] == file[p])
  {
  }

  /** What goes wrong when the second begins before the first has staged anything: they stage the same bytes. */
  lemma BegunTogetherClobber(l: Log, a: Bytes, b: Bytes, id1: SegmentId, id2: SegmentId)
    requires LogOk(l) && id1 !in l.segs && id2 !in l.segs && id1 != id2
    requires 0 < |a| <= U32_MAX && 0 < |b| <= U32_MAX
    ensures var t1, t2 := Stage(Begin(l), id1, a), Stage(Begin(l), id2, b);
            !RangesApart(t1, t2) && !LogOk(Committed(Committed(l, t1), t2))
  {
    var t1, t2 := Stage(Begin(l), id1, a), Stage(Begin(l), id2, b);
    BeginStaged(l, id1, a);
    BeginStaged(l, id2, b);
    assert !Apart(t1.pending[0].segment, t2.pending[0].segment);
    BothCommittedOkIff(l, t1, t2);
  }

  /** When the second begins after the first has staged all it stages, the ranges are disjoint, and the order of the
      commits decides: second last is fine, first last leaves the allocator below live segments. */
  lemma BegunLaterOrderDecides(l: Log, t1: Txn, t2: Txn)
    requires LogOk(l) && Staged(l, t1) && Staged(l, t2) && IdsApart(t1, t2) && t1.cur <= t2.base && t1.pending != []
    ensures RangesApart(t1, t2) && LogOk(Committed(Committed(l, t1), t2))
    ensures LogOk(Committed(Committed(l, t2), t1)) <==> forall i :: 0 <= i < |t2.pending| ==> t2.pending[i].data == []
  {
    hide LogOk, Committed, Clear, IdsApart, Staged, EndsBelow, RangesApart;
    SidesApart(l, t1, t2);
    BothCommittedOkIff(l, t1, t2);
    assert IdsApart(t2, t1) by { IdsApartFlips(t1, t2); }
    BothCommittedOkIff(l, t2, t1);
  }

  lemma IdsApartFlips(t1: Txn, t2: Txn)
    requires IdsApart(t1, t2)
    ensures IdsApart(t2, t1)
  {
  }

  /** The ranges of one lie below the ranges of the other. */
  lemma SidesApart(l: Log, t1: Txn, t2: Txn)
    requires Staged(l, t1) && Staged(l, t2) && t1.cur <= t2.base
    ensures RangesApart(t1, t2) && RangesApart(t2, t1) && EndsBelow(t1, t2.base) && EndsBelow(t1, t2.cur)
    ensures EndsBelow(t2, t1.cur) <==> forall i :: 0 <= i < |t2.pending| ==> t2.pending[i].data == []
  {
    hide Clear;
    if !(forall i :: 0 <= i < |t2.pending| ==> t2.pending[i].data == []) {
      var i :| 0 <= i < |t2.pending| && t2.pending[i].data != [];
      assert t2.pending[i].segment.offset + t2.pending[i].segment.len > t1.cur;
    }
  }

  // ---------------------------------------------------------------- one commits, the other does not

  /** Rolling back after another transaction has committed puts the allocator below its segments, unless that one had
      ended before this one began. */
  lemma RollbackAfterCommitIff(l: Log, t1: Txn, t2: Txn)
    requires LogOk(l) && Staged(l, t1) && Staged(l, t2)
    ensures LogOk(Committed(l, t1).(next := t2.base)) <==> EndsBelow(t1, t2.base)
  {
    hide WriteAll, PendingMap, Find, Staged;
    CommitOk(l, t1);
    StagedClear(l, t2);
    if t1.pending != [] {
      CommittedSegments(l, t1);
      MovedOkIff(l, t1, Committed(l, t1), t2.base);
    } else {
      assert Committed(l, t1) == l && EndsBelow(t1, t2.base);
    }
  }

  lemma StagedClear(l: Log, t: Txn)
    requires Staged(l, t)
    ensures Clear(l, t.base)
  {
  }

  lemma MovedOkIff(l: Log, t: Txn, l1: Log, next: nat)
    requires LogOk(l1.(next := t.cur)) && Clear(l, next)
    requires forall i :: 0 <= i < |t.pending| ==> t.pending[i].segment.id in l1.segs && l1.segs[t.pending[i].segment.id] == t.pending[i].segment
    requires forall id :: id in l1.segs ==> (id in l.segs && l1.segs[id] == l.segs[id]) || CommittedFrom(t.pending, id, l1.segs[id])
    ensures LogOk(l1.(next := next)) <==> EndsBelow(t, next)
  {
    var l2 := l1.(next := next);
    if LogOk(l2) {
      forall i | 0 <= i < |t.pending| && t.pending[i].segment.len > 0 ensures t.pending[i].segment.offset + t.pending[i].segment.len <= next {
        assert Placed(l2.file, l2.next, l2.segs[t.pending[i].segment.id]);
      }
    }
    if EndsBelow(t, next) {
      forall id | id in l2.segs ensures Placed(l2.file, next, l2.segs[id]) {
        assert Placed(l1.file, t.cur, l1.segs[id]);
      }
    }
  }

  /** What a torn commit has written, as staged entries. */
  function TornPart(pending: seq<Pending>, entries: nat, bytes: nat): seq<Pending> {
    if entries >= |pending| then pending
    else
      var e := pending[entries];
      var piece := e.data[..Min(bytes, |e.data|)];
      pending[..entries] + [Pending(e.segment.(len := |piece|), piece)]
  }

  lemma TornIsAll(file: Bytes, pending: seq<Pending>, entries: nat, bytes: nat)
    ensures WriteTorn(file, pending, entries, bytes) == WriteAll(file, TornPart(pending, entries, bytes))
  {
    if entries < |pending| {
      var part := TornPart(pending, entries, bytes);
      assert part[..|part| - 1] == pending[..entries];
    }
  }

  lemma TornPartRanges(pending: seq<Pending>, base: nat, cur: nat, entries: nat, bytes: nat)
    requires StagedRanges(pending, base, cur)
    ensures StagedRanges(TornPart(pending, entries, bytes), base, cur)
  {
  }

  /** Likewise a commit that fails after another transaction has committed: the order of the log depends on where it
      began, and each of the other's segments reads back exactly if no byte that was written into it differs. */
  lemma TornAfterCommitIff(l: Log, t1: Txn, t2: Txn, entries: nat, bytes: nat)
    requires LogOk(l) && Staged(l, t1) && Staged(l, t2)
    ensures var l1 := Committed(l, t1); var l2 := Log(WriteTorn(l1.file, t2.pending, entries, bytes), l1.segs, t2.base);
            && (LogOk(l2) <==> EndsBelow(t1, t2.base))
            && forall i :: 0 <= i < |t1.pending| ==>
                 var e := t1.pending[i]; var part := TornPart(t2.pending, entries, bytes);
                 && e.segment.id in l2.segs
                 && (RawOf(l2, e.segment.id) == Some(e.data) <==> forall j :: 0 <= j < |part| ==> SameBytes(e, part[j]))
  {
    hide WriteAll, WriteTorn, PendingMap, Find, TornPart, SameBytes, LogOk, ReadAt, EndsBelow;
    var l1 := Committed(l, t1);
    var part := TornPart(t2.pending, entries, bytes);
    var torn := t2.(pending := part);
    TornIsAll(l1.file, t2.pending, entries, bytes);
    TornPartRanges(t2.pending, t2.base, t2.cur, entries, bytes);
    CommitOk(l, t1);
    RollbackAfterCommitIff(l, t1, t2);
    WriteAllLong(l1.file, part);
    LongerOkIff(l1, WriteTorn(l1.file, t2.pending, entries, bytes), t1.cur, t2.base);
    forall i | 0 <= i < |t1.pending|
      ensures var e := t1.pending[i]; var l2 := Log(WriteTorn(l1.file, t2.pending, entries, bytes), l1.segs, t2.base);
              && e.segment.id in l2.segs
              && (RawOf(l2, e.segment.id) == Some(e.data) <==> forall j :: 0 <= j < |part| ==> SameBytes(e, part[j]))
    {
      OverwrittenIff(l1.file, torn, t1.pending[i]);
    }
  }

  /** A longer file does not decide whether the log is in order. */
  lemma LongerOkIff(l: Log, file: Bytes, cur: nat, next: nat)
    requires LogOk(l.(next := cur)) && |l.file| <= |file|
    ensures LogOk(Log(file, l.segs, next)) <==> LogOk(l.(next := next))
  {
    hide Apart;
    var l1 := l.(next := cur);
    forall id | id in l.segs ensures Placed(file, next, l.segs[id]) <==> Placed(l.file, next, l.segs[id]) {
      assert Placed(l1.file, cur, l1.segs[id]);
    }
  }

  lemma BeginStaged(l: Log, id: SegmentId, data: Bytes)
    requires LogOk(l) && id !in l.segs && |data| <= U32_MAX
    ensures Staged(l, Stage(Begin(l), id, data))
  {
    assert Staged(l, Begin(l));
    StageKeepsIff(l, Begin(l), id, data);
  }

  // ---------------------------------------------------------------- the classes

  predicate Keyed(segs: map<SegmentId, Segment>) { forall id :: id in segs ==> segs[id].id == id }

  class NvramLog {
    var file: Bytes
    var segmentMap: map<SegmentId, Segment>
    var nextOffset: nat
    var metadataFile: map<SegmentId, Segment>  // the saved segment map

    /** Every change of the segment map has been saved, and it is keyed by segment id. */
    ghost predicate Valid() reads this { metadataFile == segmentMap && Keyed(segmentMap) }

    ghost function View(): Log reads this { Log(file, segmentMap, nextOffset) }

    constructor Open(file: Bytes, metadataFile: map<SegmentId, Segment>)
      requires Keyed(metadataFile)
      ensures Valid() && View() == Log(file, metadataFile, |file|)
    {
      this.file := file;
      this.metadataFile := metadataFile;
      segmentMap := metadataFile;
      nextOffset := |file|;
    }

    method SaveSegmentMap()
      modifies this`metadataFile
      ensures metadataFile == segmentMap
    {
      metadataFile := segmentMap;
    }

    method AppendSegment(id: SegmentId, data: Bytes, io: Io) returns (r: Result<Segment>)
      requires Valid()
      modifies this
      ensures Valid() && (r.Ok? <==> io.Good?)
      ensures io.Good? ==> View() == Append(old(View()), id, data) && r.value == View().segs[id]
      ensures io.Torn? ==>
        && r == Err(DeviceFailure)
        && View() == old(View()).(file := WriteAt(old(file), old(nextOffset), data[..Min(io.bytes, |data|)]))
    {
      var offset := nextOffset;
      if io.Torn? {
        file := WriteAt(file, offset, data[..Min(io.bytes, |data|)]);
        return Err(DeviceFailure);
      }
      file := WriteAt(file, offset, data);
      var segment := FreshSegment(id, offset, |data|);
      nextOffset := nextOffset + |data|;
      segmentMap := segmentMap[id := segment];
      SaveSegmentMap();
      r := Ok(segment);
    }

    method IncrementRefcount(id: SegmentId) returns (r: Result<Segment>)
      requires Valid()
      modifies this
      ensures Valid() && View() == Increment(old(View()), id)
      ensures r == if id in segmentMap then Ok(segmentMap[id]) else Err(SegmentNotFound)
    {
      if id !in segmentMap { return Err(SegmentNotFound); }
      var segment := Incremented(segmentMap[id]);
      segmentMap := segmentMap[id := segment];
      SaveSegmentMap();
      r := Ok(segment);
    }

    method DecrementRefcount(id: SegmentId) returns (r: Result<Segment>)
      requires Valid()
      modifies this
      ensures Valid() && View() == Decrement(old(View()), id)
      ensures r == if id !in old(segmentMap) then Err(SegmentNotFound)
                   else if old(segmentMap)[id].refCount == 0 then Err(ZeroRefCount)
                   else Ok(View().segs[id])
    {
      if id !in segmentMap { return Err(SegmentNotFound); }
      if segmentMap[id].refCount == 0 { return Err(ZeroRefCount); }
      var segment := Decremented(segmentMap[id]);
      segmentMap := segmentMap[id := segment];
      SaveSegmentMap();
      r := Ok(segment);
    }

    method RemoveSegment(id: SegmentId) returns (r: Option<Segment>)
      requires Valid()
      modifies this
      ensures Valid() && View() == Remove(old(View()), id)
      ensures r == if id in old(segmentMap) then Some(old(segmentMap)[id]) else None
    {
      r := if id in segmentMap then Some(segmentMap[id]) else None;
      segmentMap := segmentMap - {id};
      if r.Some? { SaveSegmentMap(); }
    }

    method Read(id: SegmentId) returns (r: Result<Bytes>)
      ensures r == if id !in segmentMap then Err(SegmentNotFound)
                   else match RawOf(View(), id) case Some(d) => Ok(d) case None => Err(ReadPastEnd)
    {
      if id !in segmentMap { return Err(SegmentNotFound); }
      match ReadAt(file, segmentMap[id].offset, segmentMap[id].len)
      case Some(d) => r := Ok(d);
      case None => r := Err(ReadPastEnd);
    }

    method GetSegmentMetadata(id: SegmentId) returns (r: Result<Segment>)
      ensures r == if id in segmentMap then Ok(segmentMap[id]) else Err(SegmentNotFound)
    {
      r := if id in segmentMap then Ok(segmentMap[id]) else Err(SegmentNotFound);
    }

    method UpdateSegmentMetadata(id: SegmentId, segment: Segment)
      requires Valid() && segment.id == id
      modifies this
      ensures Valid() && View() == Update(old(View()), id, segment)
    {
      segmentMap := segmentMap[id := segment];
      SaveSegmentMap();
    }
  }

  class NvramTransaction {
    const log: NvramLog
    var pending: seq<Pending>
    var baseOffset: nat
    var currentOffset: nat
    var finalized: bool

    ghost function View(): Txn reads this { Txn(pending, baseOffset, currentOffset, finalized) }

    constructor (log: NvramLog)
      ensures this.log == log && View() == Begin(log.View())
    {
      this.log := log;
      pending, baseOffset, currentOffset, finalized := [], log.nextOffset, log.nextOffset, false;
    }

    method AppendSegment(id: SegmentId, data: Bytes) returns (r: Result<Segment>)
      modifies this, log`nextOffset
      ensures old(finalized) ==> r == Err(TransactionFinalized) && View() == old(View()) && log.View() == old(log.View())
      ensures !old(finalized) ==> r == Ok(FreshSegment(id, old(currentOffset), |data|))
      ensures !old(finalized) ==> View() == Stage(old(View()), id, data)
      ensures !old(finalized) ==> log.View() == old(log.View()).(next := currentOffset)
    {
      if finalized { return Err(TransactionFinalized); }
      var segment := FreshSegment(id, currentOffset, |data|);
      currentOffset := currentOffset + |data|;
      log.nextOffset := currentOffset;
      pending := pending + [Pending(segment, data)];
      r := Ok(segment);
    }

    method PendingSegment(id: SegmentId) returns (r: Option<Segment>)
      ensures r == match Find(pending, id) case Some(i) => Some(pending[i].segment) case None => None
    {
      match Find(pending, id)
      case Some(i) => r := Some(pending[i].segment);
      case None => r := None;
    }

    /** Both `set_segment_metadata` and `with_segment_mut` after its closure has been applied. */
    method SetSegmentMetadata(id: SegmentId, segment: Segment) returns (r: Result<()>)
      modifies this`pending
      ensures View() == if old(finalized) then old(View()) else Revise(old(View()), id, segment)
      ensures r == if finalized then Err(TransactionFinalized)
                   else if Find(old(pending), id).None? then Err(SegmentNotFound) else Ok(())
    {
      if finalized { return Err(TransactionFinalized); }
      match Find(pending, id)
      case None => r := Err(SegmentNotFound);
      case Some(i) =>
        pending := pending[i := pending[i].(segment := segment)];
        r := Ok(());
    }

    method Commit(io: Io) returns (r: Result<()>)
      requires log.Valid()
      modifies this, log
      ensures log.Valid() && finalized
      ensures old(finalized) || old(pending) == [] ==> r == Ok(()) && log.View() == old(log.View())
      ensures !old(finalized) && old(pending) != [] && io.Good? ==>
        r == Ok(()) && log.View() == Committed(old(log.View()), old(View()))
      ensures !old(finalized) && old(pending) != [] && io.Torn? ==>
        && r == Err(DeviceFailure)
        && log.View() == Log(WriteTorn(old(log.file), old(pending), io.entries, io.bytes), old(log.segmentMap), old(baseOffset))
    {
      if finalized { return Ok(()); }
      if pending == [] {
        finalized := true;
        return Ok(());
      }
      if io.Torn? {
        WriteEntries(Min(io.entries, |pending|));
        if io.entries < |pending| {
          var e := pending[io.entries];
          log.file := WriteAt(log.file, e.segment.offset, e.data[..Min(io.bytes, |e.data|)]);
        }
        log.nextOffset := baseOffset;
        finalized := true;
        assert pending[..|pending|] == pending;
        return Err(DeviceFailure);
      }
      assert pending[..|pending|] == pending;
      WriteEntries(|pending|);
      log.nextOffset := currentOffset;
      PublishEntries();
      pending := [];
      finalized := true;
      r := Ok(());
    }

    /** The commit's first loop, over the first `limit` entries. */
    method WriteEntries(limit: nat)
      requires limit <= |pending|
      modifies log`file
      ensures log.file == WriteAll(old(log.file), pending[..limit])
    {
      for i := 0 to limit
        invariant log.file == WriteAll(old(log.file), pending[..i])
      {
        log.file := WriteAt(log.file, pending[i].segment.offset, pending[i].data);
        assert pending[..i + 1][..i] == pending[..i];
      }
    }

    /** The commit's second loop: all entries enter the segment map, which is then saved. */
    method PublishEntries()
      requires Keyed(log.segmentMap)
      modifies log`segmentMap, log`metadataFile
      ensures log.Valid() && log.segmentMap == old(log.segmentMap) + PendingMap(pending)
    {
      for i := 0 to |pending|
        invariant log.segmentMap == old(log.segmentMap) + PendingMap(pending[..i]) && Keyed(log.segmentMap)
      {
        log.segmentMap := log.segmentMap[pending[i].segment.id := pending[i].segment];
        assert pending[..i + 1][..i] == pending[..i];
      }
      assert pending[..|pending|] == pending;
      log.SaveSegmentMap();
    }

    method Rollback()
      modifies this, log`nextOffset
      ensures finalized
      ensures old(finalized) ==> log.View() == old(log.View()) && View() == old(View())
      ensures !old(finalized) ==> log.View() == old(log.View()).(next := old(baseOffset)) && View() == Txn([], old(baseOffset), old(baseOffset), true)
    {
      if finalized { return; }
      log.nextOffset := baseOffset;
      pending := [];
      currentOffset := baseOffset;
      finalized := true;
    }
  }
}
