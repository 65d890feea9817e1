/** The fixed CPU layout: cutting the input into segments and the segments into zones. */
module Layout {
  import opened Types
  import opened Codec

  datatype SegmentRef = SegmentRef(offset: nat, length: nat, hash: ContentHash)

  datatype Zone = Zone(id: nat, segments: seq<SegmentRef>)

  function Total(segs: seq<SegmentRef>): nat {
    if segs == [] then 0 else Total(segs[..|segs| - 1]) + segs[|segs| - 1].length
  }

  /** All segments in zone order. */
  function AllSegments(zones: seq<Zone>): seq<SegmentRef> {
    if zones == [] then [] else AllSegments(zones[..|zones| - 1]) + zones[|zones| - 1].segments
  }

  /** Not empty, not longer than `size`, inside the input, and with its bytes' hash. */
  predicate Cut(s: SegmentRef, data: Bytes, size: nat, hash: Bytes -> ContentHash) {
    && 0 < s.length <= size && s.offset + s.length <= |data|
    && s.hash == hash(data[s.offset..s.offset + s.length])
  }

  /** The segments lie end to end from 0 to `end`. */
  predicate Tiles(segs: seq<SegmentRef>, data: Bytes, size: nat, hash: Bytes -> ContentHash, end: nat) {
    if segs == [] then end == 0
    else
      var s := segs[|segs| - 1];
      Cut(s, data, size, hash) && s.offset + s.length == end && Tiles(segs[..|segs| - 1], data, size, hash, s.offset)
  }

  /** Zone ids count up from 0, and every zone was closed when it reached `size`. */
  predicate Closed(zones: seq<Zone>, size: nat) {
    forall i :: 0 <= i < |zones| ==> zones[i].id == i && size <= Total(zones[i].segments) < 2 * size
  }

  lemma TilesMore(segs: seq<SegmentRef>, data: Bytes, size: nat, hash: Bytes -> ContentHash, end: nat, s: SegmentRef)
    requires Tiles(segs, data, size, hash, end) && s.offset == end && Cut(s, data, size, hash)
    ensures Tiles(segs + [s], data, size, hash, end + s.length)
  {
    assert (segs + [s])[..|segs|] == segs;
  }

  lemma {:induction false} TotalConcat(a: seq<SegmentRef>, b: seq<SegmentRef>)
    ensures Total(a + b) == Total(a) + Total(b)
  {
    if b == [] {
      assert a + b == a;
    } else {
      TotalConcat(a, b[..|b| - 1]);
      assert (a + b)[..|a + b| - 1] == a + b[..|b| - 1];
    }
  }

  /** `data.chunks(size)` */
  function Slices(data: Bytes, size: nat): seq<Bytes>
    requires size > 0
    decreases |data|
  {
    if data == [] then [] else if |data| <= size then [data] else [data[..size]] + Slices(data[size..], size)
  }

  lemma {:induction false} SlicesFlatten(data: Bytes, size: nat)
    requires size > 0
    ensures Flatten(Slices(data, size)) == data
    decreases |data|
  {
    hide Flatten;
    if data == [] {
      FlattenNone();
    } else if |data| <= size {
      FlattenOne(data);
    } else {
      SlicesFlatten(data[size..], size);
      FlattenCons(data[..size], Slices(data[size..], size));
    }
  }

  lemma FlattenNone()
    ensures Flatten([]) == []
  {
  }

  lemma FlattenOne(data: Bytes)
    ensures Flatten([data]) == data
  {
    FlattenCons(data, []);
    assert [data] + [] == [data];
  }

  lemma {:induction false} SlicesShort(data: Bytes, size: nat)
    requires size > 0
    ensures forall i :: 0 <= i < |Slices(data, size)| ==> 0 < |Slices(data, size)[i]| <= size
    decreases |data|
  {
    if |data| > size { SlicesShort(data[size..], size); }
  }

  /** Every slice cut once more. */
  function Pieces(slices: seq<Bytes>, size: nat): seq<Bytes>
    requires size > 0
  {
    if slices == [] then [] else Pieces(slices[..|slices| - 1], size) + Slices(slices[|slices| - 1], size)
  }

  /** Slices that are short enough are not cut any further. */
  lemma {:induction false} PiecesShort(slices: seq<Bytes>, size: nat)
    requires size > 0 && forall i :: 0 <= i < |slices| ==> 0 < |slices[i]| <= size
    ensures Pieces(slices, size) == slices
  {
    if slices != [] { PiecesShort(slices[..|slices| - 1], size); }
  }

  function Piece(s: SegmentRef, data: Bytes): Bytes {
    if s.offset + s.length <= |data| then data[s.offset..s.offset + s.length] else []
  }

  /** The pieces of the input that the segments name. */
  function Cuts(segs: seq<SegmentRef>, data: Bytes): seq<Bytes> {
    if segs == [] then [] else Cuts(segs[..|segs| - 1], data) + [Piece(segs[|segs| - 1], data)]
  }

  lemma {:induction false} CutsAt(segs: seq<SegmentRef>, data: Bytes)
    ensures |Cuts(segs, data)| == |segs|
    ensures forall i :: 0 <= i < |segs| ==> Cuts(segs, data)[i] == Piece(segs[i], data)
  {
    if segs != [] { CutsAt(segs[..|segs| - 1], data); }
  }

  lemma CutsSnoc(segs: seq<SegmentRef>, s: SegmentRef, data: Bytes)
    ensures Cuts(segs + [s], data) == Cuts(segs, data) + [Piece(s, data)]
  {
    assert (segs + [s])[..|segs|] == segs;
  }

  /** Reading the segments of a plan in order gives the input back. */
  lemma {:induction false} TilesReassemble(segs: seq<SegmentRef>, data: Bytes, size: nat, hash: Bytes -> ContentHash, end: nat)
    requires Tiles(segs, data, size, hash, end)
    ensures end <= |data| && Flatten(Cuts(segs, data)) == data[..end]
  {
    if segs != [] {
      var n := |segs| - 1;
      TilesReassemble(segs[..n], data, size, hash, segs[n].offset);
      assert data[..segs[n].offset] + data[segs[n].offset..end] == data[..end];
    }
  }

  lemma {:induction false} FlattenAt(slices: seq<Bytes>, i: nat)
    requires i < |slices|
    ensures var at := |Flatten(slices[..i])|;
            at + |slices[i]| <= |Flatten(slices)| && Flatten(slices)[at..at + |slices[i]|] == slices[i]
    decreases |slices|
  {
    var n := |slices| - 1;
    if i < n {
      FlattenAt(slices[..n], i);
      assert slices[..n][..i] == slices[..i];
    }
  }

  /** A plan partitions the input exactly. */
  predicate Partition(zones: seq<Zone>, data: Bytes, size: nat, hash: Bytes -> ContentHash) {
    && Tiles(AllSegments(zones), data, size, hash, |data|)
    && (forall i :: 0 <= i < |zones| ==> zones[i].id == i && zones[i].segments != [] && Total(zones[i].segments) < 2 * size)
    && (forall i :: 0 <= i < |zones| - 1 ==> size <= Total(zones[i].segments))
  }

  /** The plan covers the input in order, in exactly the pieces of at most `size` bytes that its slices fall into. */
  method BuildPlan(slices: seq<Bytes>, size: nat, hash: Bytes -> ContentHash) returns (zones: seq<Zone>)
    requires size > 0
    ensures Partition(zones, Flatten(slices), size, hash)
    ensures Cuts(AllSegments(zones), Flatten(slices)) == Pieces(slices, size)
    ensures Flatten(Cuts(AllSegments(zones), Flatten(slices))) == Flatten(slices)
  {
    hide Flatten, Tiles, Cuts, Pieces, AllSegments, Closed, Total;
    ghost var data := Flatten(slices);
    zones := [];
    var current, usage, cursor := Zone(0, []), 0, 0;
    NothingYet(slices, data, size, hash);
    for i := 0 to |slices|
      invariant cursor == |Flatten(slices[..i])| && current.id == |zones| && usage == Total(current.segments) < size
      invariant Closed(zones, size) && Tiles(AllSegments(zones) + current.segments, data, size, hash, cursor)
      invariant Cuts(AllSegments(zones) + current.segments, data) == Pieces(slices[..i], size)
    {
      FlattenAt(slices, i);
      FlattenSnoc(slices, i);
      PiecesSnoc(slices, i, size);
      zones, current, usage := CutSlice(slices[i], data, size, hash, cursor, zones, current, usage);
      cursor := cursor + |slices[i]|;
    }
    assert slices[..|slices|] == slices;
    Finished(zones, current, data, size, hash);
    if current.segments != [] {
      zones := zones + [current];
    }
    TilesReassemble(AllSegments(zones), data, size, hash, |data|);
    assert data[..|data|] == data;
  }

  /** The last zone is kept if it is not empty. */
  lemma Finished(zones: seq<Zone>, current: Zone, data: Bytes, size: nat, hash: Bytes -> ContentHash)
    requires current.id == |zones| && Total(current.segments) < size && Closed(zones, size)
    requires Tiles(AllSegments(zones) + current.segments, data, size, hash, |data|)
    ensures var all := if current.segments != [] then zones + [current] else zones;
            Partition(all, data, size, hash) && AllSegments(all) == AllSegments(zones) + current.segments
  {
    hide Tiles, Total;
    AllSnoc(zones, current);
    ClosedNotEmpty(zones, size);
    if current.segments == [] { assert AllSegments(zones) + [] == AllSegments(zones); }
    hide AllSegments;
  }

  /** The loop over one slice: cut off up to `size` bytes at a time; close the zone when it has enough. */
  method CutSlice(slice: Bytes, ghost data: Bytes, size: nat, hash: Bytes -> ContentHash, cursor: nat,
                  zones0: seq<Zone>, current0: Zone, usage0: nat)
    returns (zones: seq<Zone>, current: Zone, usage: nat)
    requires size > 0 && cursor + |slice| <= |data| && data[cursor..cursor + |slice|] == slice
    requires current0.id == |zones0| && usage0 == Total(current0.segments) < size
    requires Closed(zones0, size) && Tiles(AllSegments(zones0) + current0.segments, data, size, hash, cursor)
    ensures current.id == |zones| && usage == Total(current.segments) < size
    ensures Closed(zones, size) && Tiles(AllSegments(zones) + current.segments, data, size, hash, cursor + |slice|)
    ensures Cuts(AllSegments(zones) + current.segments, data) ==
            Cuts(AllSegments(zones0) + current0.segments, data) + Slices(slice, size)
  {
    hide Tiles, AllSegments, Cut, Closed, Cuts, Slices, Total;
    ghost var before := Cuts(AllSegments(zones0) + current0.segments, data);
    zones, current, usage := zones0, current0, usage0;
    var start := 0;
    assert slice[0..] == slice;
    while start < |slice|
      invariant start <= |slice| && current.id == |zones| && usage == Total(current.segments) < size
      invariant Closed(zones, size) && Tiles(AllSegments(zones) + current.segments, data, size, hash, cursor + start)
      invariant Cuts(AllSegments(zones) + current.segments, data) + Slices(slice[start..], size) == before + Slices(slice, size)
    {
      var take := Min(|slice| - start, size);
      var chunk := slice[start..start + take];
      var s := SegmentRef(cursor + start, take, hash(chunk));
      CutOne(zones, current, s, slice, data, size, hash, cursor, start, before + Slices(slice, size));
      current := current.(segments := current.segments + [s]);
      start := start + take;
      usage := usage + take;
      if usage >= size && current.segments != [] {
        CloseZone(zones, current, size);
        zones, current, usage := zones + [current], Zone(|zones| + 1, []), 0;
      }
    }
    NoSlices(slice[start..], size);
  }

  lemma CutOne(zones: seq<Zone>, current: Zone, s: SegmentRef, slice: Bytes, data: Bytes, size: nat, hash: Bytes -> ContentHash,
               cursor: nat, start: nat, whole: seq<Bytes>)
    requires size > 0 && cursor + |slice| <= |data| && data[cursor..cursor + |slice|] == slice && start < |slice|
    requires var take := Min(|slice| - start, size); s == SegmentRef(cursor + start, take, hash(slice[start..start + take]))
    requires Tiles(AllSegments(zones) + current.segments, data, size, hash, cursor + start)
    requires Cuts(AllSegments(zones) + current.segments, data) + Slices(slice[start..], size) == whole
    ensures var segs := AllSegments(zones) + (current.segments + [s]); var next := start + s.length;
            && Tiles(segs, data, size, hash, cursor + next) && Cuts(segs, data) + Slices(slice[next..], size) == whole
            && Total(current.segments + [s]) == Total(current.segments) + s.length && Total([]) == 0
  {
    hide Tiles, AllSegments, Cut, Cuts, Slices, Total, Piece;
    var segs := AllSegments(zones) + current.segments;
    var chunk := slice[start..start + s.length];
    CutHere(slice, data, size, hash, cursor, start, s.length);
    TilesMore(segs, data, size, hash, cursor + start, s);
    TotalConcat(current.segments, [s]);
    TotalOne(s);
    CutsSnoc(segs, s, data);
    SlicesFrom(slice, start, size);
    TotalNone();
    var rest := Slices(slice[start + s.length..], size);
    assert Cuts(segs, data) + ([chunk] + rest) == Cuts(segs + [s], data) + rest;
    assert segs + [s] == AllSegments(zones) + (current.segments + [s]);
  }

  lemma SlicesFrom(slice: Bytes, start: nat, size: nat)
    requires start < |slice| && size > 0
    ensures var take := Min(|slice| - start, size);
            Slices(slice[start..], size) == [slice[start..start + take]] + Slices(slice[start + take..], size)
  {
    var rest, take := slice[start..], Min(|slice| - start, size);
    assert rest[..take] == slice[start..start + take] && rest[take..] == slice[start + take..];
    if |rest| <= size {
      assert rest[..take] == rest && slice[start + take..] == [];
      NoSlices(slice[start + take..], size);
    }
  }

  lemma NoSlices(rest: Bytes, size: nat)
    requires size > 0 && rest == []
    ensures Slices(rest, size) == [] && forall done: seq<Bytes> :: done + Slices(rest, size) == done
  {
  }

  lemma PiecesSnoc(slices: seq<Bytes>, i: nat, size: nat)
    requires i < |slices| && size > 0
    ensures Pieces(slices[..i + 1], size) == Pieces(slices[..i], size) + Slices(slices[i], size)
  {
    assert slices[..i + 1][..i] == slices[..i];
  }

  lemma CutHere(slice: Bytes, data: Bytes, size: nat, hash: Bytes -> ContentHash, cursor: nat, start: nat, take: nat)
    requires cursor + |slice| <= |data| && data[cursor..cursor + |slice|] == slice
    requires start + take <= |slice| && 0 < take <= size
    ensures var s := SegmentRef(cursor + start, take, hash(slice[start..start + take]));
            Cut(s, data, size, hash) && Piece(s, data) == slice[start..start + take]
  {
    SubSlice(data, cursor, |slice|, start, take);
  }

  lemma SubSlice(data: Bytes, at: nat, n: nat, start: nat, take: nat)
    requires at + n <= |data| && start + take <= n
    ensures data[at..at + n][start..start + take] == data[at + start..at + start + take]
  {
    var a, b := data[at..at + n][start..start + take], data[at + start..at + start + take];
    assert |a| == |b|;
    forall i | 0 <= i < take ensures a[i] == b[i] {
      assert data[at..at + n][start + i] == data[at + start + i];
    }
  }

  lemma CloseZone(zones: seq<Zone>, current: Zone, size: nat)
    requires Closed(zones, size) && current.id == |zones| && size <= Total(current.segments) < 2 * size
    ensures Closed(zones + [current], size) && Total([]) == 0
    ensures AllSegments(zones + [current]) + [] == AllSegments(zones) + current.segments
  {
    TotalNone();
    hide Total;
    AllSnoc(zones, current);
    hide AllSegments;
    NothingMore(AllSegments(zones + [current]));
  }

  lemma AllSnoc(zones: seq<Zone>, z: Zone)
    ensures AllSegments(zones + [z]) == AllSegments(zones) + z.segments
  {
    assert (zones + [z])[..|zones|] == zones;
  }

  lemma NothingMore(segs: seq<SegmentRef>)
    ensures segs + [] == segs
  {
  }

  lemma TotalNone()
    ensures Total([]) == 0
  {
  }

  lemma TotalOne(s: SegmentRef)
    ensures Total([s]) == s.length
  {
    assert Total([s][..0]) == 0;
  }

  lemma ClosedNotEmpty(zones: seq<Zone>, size: nat)
    requires Closed(zones, size) && size > 0
    ensures forall i :: 0 <= i < |zones| ==> zones[i].segments != []
  {
  }

  lemma NothingYet(slices: seq<Bytes>, data: Bytes, size: nat, hash: Bytes -> ContentHash)
    requires size > 0
    ensures Flatten(slices[..0]) == [] && AllSegments([]) + [] == [] && Tiles([], data, size, hash, 0)
    ensures Cuts(AllSegments([]) + [], data) == Pieces(slices[..0], size) && Closed([], size) && Total([]) == 0
  {
  }

  lemma FlattenSnoc(slices: seq<Bytes>, i: nat)
    requires i < |slices|
    ensures |Flatten(slices[..i + 1])| == |Flatten(slices[..i])| + |slices[i]|
  {
    assert slices[..i + 1][..i] == slices[..i];
  }
}
