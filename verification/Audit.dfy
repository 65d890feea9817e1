/** The audit log: a hash chain over appended records, through rotations and restarts. */
module Audit {
  import opened Types

  type Hash = Bytes

  datatype Record = Record(event: string, time: nat, prev: Hash, hash: Hash, proof: Option<string>)

  /** A line of the file: a record, or something that does not parse as one (an empty line, say). */
  datatype Line = Entry(record: Record) | Noise

  datatype Failure = TimestampFailed | WriteFailed | RotateFailed

  datatype Appended = Written(record: Record) | Refused(why: Failure)

  const HASH_BYTES: nat := 32

  function Zero(): Hash { seq(HASH_BYTES, _ => 0 as byte) }

  /** The hash of previous hash, event text and time. */
  type Digest = (Hash, string, nat) -> Hash

  ghost predicate Sized(digest: Digest) { forall p, e, t :: |digest(p, e, t)| == HASH_BYTES }

  /** No two different records of `a` and `b` have the same hash, and none has the hash of nothing. */
  predicate NoCollision(a: seq<Record>, b: seq<Record>) {
    && (forall i, j :: 0 <= i < |a| && 0 <= j < |b| && a[i].hash == b[j].hash ==> SameInput(a[i], b[j]))
    && NonZero(a) && NonZero(b)
  }

  predicate NonZero(a: seq<Record>) { forall i :: 0 <= i < |a| ==> a[i].hash != Zero() }

  predicate SameInput(r: Record, r': Record) { r.prev == r'.prev && r.event == r'.event && r.time == r'.time }

  /** The hash that the next record has to name. */
  function Tip(records: seq<Record>): Hash { if records == [] then Zero() else records[|records| - 1].hash }

  predicate Chain(digest: Digest, records: seq<Record>) {
    forall i :: 0 <= i < |records| ==>
      && records[i].prev == Tip(records[..i])
      && records[i].hash == digest(records[i].prev, records[i].event, records[i].time)
  }

  /** What the chain protects: everything but the time-stamping proofs. */
  function Facts(records: seq<Record>): seq<(string, nat)> {
    seq(|records|, i requires 0 <= i < |records| => (records[i].event, records[i].time))
  }

  lemma ChainPrefix(digest: Digest, records: seq<Record>, n: nat)
    requires Chain(digest, records) && n <= |records|
    ensures Chain(digest, records[..n])
  {
    forall i | 0 <= i < n ensures records[..n][i].prev == Tip(records[..n][..i]) {
      assert records[..n][..i] == records[..i];
    }
  }

  lemma ChainMore(digest: Digest, records: seq<Record>, r: Record)
    requires Chain(digest, records) && r.prev == Tip(records) && r.hash == digest(r.prev, r.event, r.time)
    ensures Chain(digest, records + [r]) && Tip(records + [r]) == r.hash
  {
    var more := records + [r];
    forall i | 0 <= i < |more| ensures more[i].prev == Tip(more[..i]) {
      assert more[..i] == records[..i];
    }
  }

  /** The last hash determines every event and its time, and how many there were: two logs that end in the same
      hash, without a hash collision between them, tell the same story. */
  lemma {:induction false} TipDetermines(digest: Digest, a: seq<Record>, b: seq<Record>)
    requires Chain(digest, a) && Chain(digest, b) && NoCollision(a, b) && Tip(a) == Tip(b)
    ensures Facts(a) == Facts(b)
    decreases |a|
  {
    hide Chain, Facts, Tip, SameInput;
    assert Tip([]) == Zero() by { TipNone(); }
    if a != [] { LastLink(digest, a); }
    if b != [] { LastLink(digest, b); }
    if a != [] && b != [] {
      var n, m := |a| - 1, |b| - 1;
      LastAgree(a[n], b[m]);
      TipDetermines(digest, a[..n], b[..m]);
      FactsSnoc(a);
      FactsSnoc(b);
    }
  }

  lemma LastAgree(r: Record, r': Record)
    requires SameInput(r, r')
    ensures r.prev == r'.prev && r.event == r'.event && r.time == r'.time
  {
  }

  lemma TipNone()
    ensures Tip([]) == Zero()
  {
  }

  lemma LastLink(digest: Digest, a: seq<Record>)
    requires Chain(digest, a) && a != []
    ensures var n := |a| - 1; Chain(digest, a[..n]) && a[n].prev == Tip(a[..n]) && Tip(a) == a[n].hash
  {
    ChainPrefix(digest, a, |a| - 1);
  }

  lemma FactsSnoc(a: seq<Record>)
    requires a != []
    ensures Facts(a) == Facts(a[..|a| - 1]) + [(a[|a| - 1].event, a[|a| - 1].time)]
  {
  }

  // ---------------------------------------------------------------- recovery

  /** The hash of the last line that is a record with a whole hash. */
  function Recovered(lines: seq<Line>): Hash {
    if lines == [] then Zero()
    else
      var l := lines[|lines| - 1];
      if l.Entry? && |l.record.hash| == HASH_BYTES then l.record.hash else Recovered(lines[..|lines| - 1])
  }

  function Records(lines: seq<Line>): seq<Record> {
    if lines == [] then []
    else
      var before, l := Records(lines[..|lines| - 1]), lines[|lines| - 1];
      if l.Entry? then before + [l.record] else before
  }

  /** The file holds the end of the history. */
  predicate Holds(lines: seq<Line>, history: seq<Record>) {
    |Records(lines)| <= |history| && history[|history| - |Records(lines)|..] == Records(lines)
  }

  lemma {:induction false} RecoveredIsLast(digest: Digest, lines: seq<Line>, history: seq<Record>)
    requires Sized(digest) && Chain(digest, history) && Holds(lines, history)
    ensures Recovered(lines) == if Records(lines) == [] then Zero() else Tip(history)
  {
    if lines != [] {
      var l, before := lines[|lines| - 1], lines[..|lines| - 1];
      if l.Entry? {
        assert history[|history| - 1] == Records(lines)[|Records(lines)| - 1];
      } else {
        RecoveredIsLast(digest, before, history);
      }
    }
  }

  /** A restart continues the chain exactly when the current file still has a record, or nothing was ever
      written: a restart right after a rotation begins a new chain. */
  lemma RestartContinuesIff(digest: Digest, lines: seq<Line>, history: seq<Record>)
    requires Sized(digest) && Chain(digest, history) && Holds(lines, history) && NonZero(history)
    ensures Recovered(lines) == Tip(history) <==> Records(lines) != [] || history == []
  {
    RecoveredIsLast(digest, lines, history);
  }

  method RecoverLastHash(lines: seq<Line>) returns (last: Hash)
    ensures last == Recovered(lines)
  {
    last := Zero();
    for i := 0 to |lines|
      invariant last == Recovered(lines[..i])
    {
      assert lines[..i + 1][..i] == lines[..i];
      if lines[i].Entry? && |lines[i].record.hash| == HASH_BYTES { last := lines[i].record.hash; }
    }
    assert lines[..|lines|] == lines;
  }

  // ---------------------------------------------------------------- the class

  class AuditLog {
    const digest: Digest
    const tsaBatch: Option<nat>  // with a time-stamping client: how many records one proof is for
    const rotates: bool          // a size limit is set
    var file: seq<Line>
    var rotated: seq<Line>
    var detached: bool           // the open handle still belongs to the renamed file, and there is no new one
    var lastHash: Hash
    var sinceTsa: nat
    var lastTsa: Option<string>
    ghost var history: seq<Record>  // every record ever written

    ghost predicate Valid() reads this {
      && Sized(digest) && Chain(digest, history) && lastHash == Tip(history) && Holds(file, history)
      && (detached ==> file == [] && Holds(rotated, history))
    }

    /** The lines behind the open handle. */
    ghost function Current(): seq<Line> reads this { if detached then rotated else file }

    /** Opening an existing file, or a new one. */
    constructor (digest: Digest, tsaBatch: Option<nat>, rotates: bool, file: seq<Line>, ghost history: seq<Record>)
      requires Sized(digest) && Chain(digest, history) && Holds(file, history)
      requires Records(file) != [] || history == []
      ensures Valid() && this.file == file && this.history == history && lastHash == Recovered(file)
      ensures !detached && sinceTsa == 0 && lastTsa == None
    {
      this.digest, this.tsaBatch, this.rotates, this.file, this.history := digest, tsaBatch, rotates, file, history;
      rotated, detached, sinceTsa, lastTsa := [], false, 0, None;
      new;
      lastHash := RecoverLastHash(file);
      RecoveredIsLast(digest, file, history);
    }

    /** `proof` is the client's answer if it is asked, `written` whether the line can be written, `full` whether the
        file has reached its limit, `renamed` whether a rotation can rename it and `reopened` whether it can open the
        path again. A failed rename is ignored: the file goes on growing. A failed reopening is reported, but the
        record is written, and until one succeeds the records go to the renamed file. */
    method Append(event: string, time: nat, proof: Option<string>, written: bool, full: bool, renamed: bool, reopened: bool)
      returns (r: Appended)
      requires Valid()
      modifies this
      ensures Valid()
      ensures var asked := Asked(tsaBatch, old(sinceTsa));
              && sinceTsa == (if tsaBatch.None? then old(sinceTsa) else if asked && proof.Some? then 0 else old(sinceTsa) + 1)
              && lastTsa == (if asked && proof.Some? then proof else old(lastTsa))
      ensures var asked := Asked(tsaBatch, old(sinceTsa));
              var next := NextRecord(digest, old(history), event, time, if asked then proof else None);
              var rolled, moved := rotates && full, renamed || old(detached);
              if (asked && proof.None?) || !written then
                && r == Refused(if asked && proof.None? then TimestampFailed else WriteFailed)
                && history == old(history) && file == old(file) && rotated == old(rotated) && detached == old(detached)
              else
                && r == (if rolled && !reopened then Refused(RotateFailed) else Written(next))
                && history == old(history) + [next]
                && (if rolled && moved then rotated == old(Current()) + [Entry(next)] && file == [] && detached == !reopened
                    else Current() == old(Current()) + [Entry(next)] && detached == old(detached) && (!detached ==> rotated == old(rotated)))
    {
      hide Sized, Chain, Holds, Records, Tip;
      var record := Record(event, time, lastHash, digest(lastHash, event, time), None);
      if tsaBatch.Some? {
        sinceTsa := sinceTsa + 1;
        if sinceTsa >= tsaBatch.value {
          if proof.None? { return Refused(TimestampFailed); }
          record := record.(proof := proof);
          lastTsa := proof;
          sinceTsa := 0;
        }
      }
      if !written {
        return Refused(WriteFailed);
      }
      ChainMore(digest, history, record);
      EntryMore(Current(), history, record);
      history := history + [record];
      EmptyHolds(history);
      if detached { rotated := rotated + [Entry(record)]; } else { file := file + [Entry(record)]; }
      lastHash := record.hash;
      if rotates && full {
        if renamed && !detached {
          rotated, file, detached := file, [], true;
        }
        if !reopened { return Refused(RotateFailed); }
        detached := false;
      }
      r := Written(record);
    }
  }

  /** The record that continues `history`. */
  function NextRecord(digest: Digest, history: seq<Record>, event: string, time: nat, proof: Option<string>): Record {
    Record(event, time, Tip(history), digest(Tip(history), event, time), proof)
  }

  /** The time-stamping client is asked for a proof. */
  predicate Asked(tsaBatch: Option<nat>, since: nat) { tsaBatch.Some? && since + 1 >= tsaBatch.value }

  /** The appends since the last proof, after `n` appends that all succeed. */
  function SinceAfter(batch: nat, n: nat): nat {
    if n == 0 || Asked(Some(batch), SinceAfter(batch, n - 1)) then 0 else SinceAfter(batch, n - 1) + 1
  }

  /** While everything succeeds, the client is asked for every `batch`-th record and for no other. */
  lemma {:induction false} AskedExactly(batch: nat, n: nat)
    requires batch > 0
    ensures SinceAfter(batch, n) == n % batch
    ensures Asked(Some(batch), SinceAfter(batch, n)) <==> (n + 1) % batch == 0
  {
    if n > 0 { AskedExactly(batch, n - 1); }
    NextRemainder(n, batch);
    if n > 0 { NextRemainder(n - 1, batch); }
  }

  lemma NextRemainder(n: nat, d: nat)
    requires d > 0
    ensures (n + 1) % d == if n % d + 1 == d then 0 else n % d + 1
  {
    var q, r := n / d, n % d;
    assert n + 1 == d * q + (r + 1);
    if r + 1 == d {
      assert n + 1 == d * (q + 1) + 0;
      Division(n + 1, d, q + 1, 0);
    } else {
      Division(n + 1, d, q, r + 1);
    }
  }

  lemma EntryMore(lines: seq<Line>, history: seq<Record>, r: Record)
    requires Holds(lines, history)
    ensures Holds(lines + [Entry(r)], history + [r]) && Records(lines + [Entry(r)]) == Records(lines) + [r]
  {
    assert (lines + [Entry(r)])[..|lines|] == lines;
  }

  lemma EmptyHolds(history: seq<Record>)
    ensures Holds([], history) && Records([]) == []
  {
  }
}
