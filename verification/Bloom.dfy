/** The counting Bloom filter in front of the content store. */
module Bloom {
  import opened Types
  import opened Registry

  const U8_MAX: byte := 255
  const WORD: nat := 0x1_0000_0000_0000_0000

  /** The filter's shape: its sizing (a floating-point formula) and the pair of 64-bit hashes are arbitrary. */
  datatype Geometry = Geometry(hashPair: ContentHash -> (nat, nat), buckets: nat, hashes: nat)

  function Index(g: Geometry, key: ContentHash, i: nat): (k: nat)
    requires g.buckets > 0
    ensures k < g.buckets
  {
    ((g.hashPair(key).0 + (i * g.hashPair(key).1) % WORD) % WORD) % g.buckets
  }

  /** The wrapping steps together wrap once: the first hash plus `i` times the second, in 64 bits. */
  lemma IndexIs(g: Geometry, key: ContentHash, i: nat)
    requires g.buckets > 0
    ensures Index(g, key, i) == (g.hashPair(key).0 + i * g.hashPair(key).1) % WORD % g.buckets
  {
    var a, b := g.hashPair(key).0, i * g.hashPair(key).1;
    var q, r := (a + b % WORD) / WORD, (a + b % WORD) % WORD;
    Division(a + b, WORD, b / WORD + q, r);
  }

  function Indexes(g: Geometry, key: ContentHash): (s: seq<nat>)
    requires g.buckets > 0
    ensures |s| == g.hashes && forall i :: 0 <= i < |s| ==> s[i] < g.buckets
  {
    seq(g.hashes, i requires 0 <= i => Index(g, key, i))
  }

  /** How often a key hits bucket `b`, repeated indexes included. */
  function Hits(g: Geometry, key: ContentHash, b: nat): nat
    requires g.buckets > 0
  {
    multiset(Indexes(g, key))[b]
  }

  /** How often bucket `b` is hit by all the keys together, repeated keys included. */
  ghost function Load(g: Geometry, keys: multiset<ContentHash>, b: nat): nat
    requires g.buckets > 0
    decreases |keys|
  {
    if keys == multiset{} then 0
    else
      var k :| k in keys;
      Hits(g, k, b) + Load(g, keys - multiset{k}, b)
  }

  lemma {:induction false} LoadSplit(g: Geometry, keys: multiset<ContentHash>, k: ContentHash, b: nat)
    requires g.buckets > 0 && k in keys
    ensures Load(g, keys, b) == Hits(g, k, b) + Load(g, keys - multiset{k}, b)
    decreases |keys|
  {
    hide Hits;
    var d :| d in keys && Load(g, keys, b) == Hits(g, d, b) + Load(g, keys - multiset{d}, b);
    if d != k {
      LoadSplit(g, keys - multiset{d}, k, b);
      LoadSplit(g, keys - multiset{k}, d, b);
      assert keys - multiset{d} - multiset{k} == keys - multiset{k} - multiset{d};
    }
  }

  lemma LoadMore(g: Geometry, keys: multiset<ContentHash>, k: ContentHash, b: nat)
    requires g.buckets > 0
    ensures Load(g, keys + multiset{k}, b) == Hits(g, k, b) + Load(g, keys, b)
  {
    assert keys + multiset{k} - multiset{k} == keys;
    LoadSplit(g, keys + multiset{k}, k, b);
  }

  lemma {:induction false} LoadConcat(g: Geometry, a: multiset<ContentHash>, c: multiset<ContentHash>, b: nat)
    requires g.buckets > 0
    ensures Load(g, a + c, b) == Load(g, a, b) + Load(g, c, b)
    decreases |c|
  {
    hide Hits;
    if c == multiset{} {
      assert a + c == a;
    } else {
      var k :| k in c;
      LoadSplit(g, a + c, k, b);
      LoadSplit(g, c, k, b);
      assert a + c - multiset{k} == a + (c - multiset{k});
      LoadConcat(g, a, c - multiset{k}, b);
    }
  }

  lemma LoadWithout(g: Geometry, keys: multiset<ContentHash>, gone: multiset<ContentHash>, b: nat)
    requires g.buckets > 0 && gone <= keys
    ensures Load(g, keys - gone, b) == Load(g, keys, b) - Load(g, gone, b)
  {
    assert keys - gone + gone == keys;
    LoadConcat(g, keys - gone, gone, b);
  }

  // ---------------------------------------------------------------- counters

  function SatAdd(c: byte, n: nat): byte { if c as nat + n <= U8_MAX as nat then (c as nat + n) as byte else U8_MAX }
  function SatSub(c: byte, n: nat): byte { if c as nat >= n then (c as nat - n) as byte else 0 }

  function Added(g: Geometry, counts: seq<byte>, key: ContentHash): seq<byte>
    requires g.buckets > 0
  {
    seq(|counts|, b requires 0 <= b < |counts| => SatAdd(counts[b], Hits(g, key, b)))
  }

  function Subtracted(g: Geometry, counts: seq<byte>, key: ContentHash): seq<byte>
    requires g.buckets > 0
  {
    seq(|counts|, b requires 0 <= b < |counts| => SatSub(counts[b], Hits(g, key, b)))
  }

  /** The filter answers no: one of the key's counters is zero. */
  predicate Denies(g: Geometry, counts: seq<byte>, key: ContentHash)
    requires g.buckets > 0
  {
    exists b :: 0 <= b < |counts| && counts[b] == 0 && Hits(g, key, b) > 0
  }

  lemma HitsIndex(g: Geometry, key: ContentHash, b: nat)
    requires g.buckets > 0
    ensures Hits(g, key, b) > 0 <==> exists i :: 0 <= i < g.hashes && Index(g, key, i) == b
  {
    var s := Indexes(g, key);
    if Hits(g, key, b) > 0 {
      assert b in multiset(s);
      var i :| 0 <= i < |s| && s[i] == b;
      assert Index(g, key, i) == b;
    }
    if i :| 0 <= i < g.hashes && Index(g, key, i) == b {
      assert s[i] == b && b in multiset(s);
    }
  }

  /** No counter ever exceeds its bucket's load. */
  ghost predicate Below(g: Geometry, counts: seq<byte>, keys: multiset<ContentHash>)
    requires g.buckets > 0
  {
    |counts| == g.buckets && forall b :: 0 <= b < g.buckets ==> counts[b] as nat <= Load(g, keys, b)
  }

  /** What counter `b` is short of. */
  ghost function Debt(g: Geometry, counts: seq<byte>, keys: multiset<ContentHash>, b: nat): nat
    requires g.buckets > 0 && Below(g, counts, keys) && b < g.buckets
  {
    Load(g, keys, b) - counts[b] as nat
  }

  ghost predicate Exact(g: Geometry, counts: seq<byte>, keys: multiset<ContentHash>)
    requires g.buckets > 0
  {
    |counts| == g.buckets && forall b :: 0 <= b < g.buckets ==> counts[b] as nat == Load(g, keys, b)
  }

  /** The key finds room in every counter it hits. */
  predicate Room(g: Geometry, counts: seq<byte>, key: ContentHash)
    requires g.buckets > 0
  {
    forall b :: 0 <= b < |counts| ==> counts[b] as nat + Hits(g, key, b) <= U8_MAX as nat
  }

  /** No bucket is hit so often that its u8 counter would saturate. */
  ghost predicate Fits(g: Geometry, keys: multiset<ContentHash>)
    requires g.buckets > 0
  {
    forall b :: 0 <= b < g.buckets ==> Load(g, keys, b) <= U8_MAX as nat
  }

  /** An insertion makes a counter short by exactly the increments that did not fit below 255, and never repays. */
  lemma AddedDebt(g: Geometry, counts: seq<byte>, keys: multiset<ContentHash>, key: ContentHash)
    requires g.buckets > 0 && Below(g, counts, keys)
    ensures Below(g, Added(g, counts, key), keys + multiset{key})
    ensures forall b :: 0 <= b < g.buckets ==>
      Debt(g, Added(g, counts, key), keys + multiset{key}, b) ==
        Debt(g, counts, keys, b) + if counts[b] as nat + Hits(g, key, b) > 255 then counts[b] as nat + Hits(g, key, b) - 255 else 0
    ensures Exact(g, Added(g, counts, key), keys + multiset{key}) <==> Exact(g, counts, keys) && Room(g, counts, key)
    ensures Exact(g, Added(g, counts, key), keys + multiset{key}) <==> Exact(g, counts, keys) && Fits(g, keys + multiset{key})
  {
    hide Hits, Load;
    forall b | 0 <= b < g.buckets ensures Load(g, keys + multiset{key}, b) == Hits(g, key, b) + Load(g, keys, b) {
      LoadMore(g, keys, key, b);
    }
  }

  /** Removing a key that is in repays what the counter cannot pay out, down to zero; removing one that is not makes
      every counter it hits short. */
  lemma SubtractedDebt(g: Geometry, counts: seq<byte>, keys: multiset<ContentHash>, key: ContentHash)
    requires g.buckets > 0 && Below(g, counts, keys)
    ensures Below(g, Subtracted(g, counts, key), keys - multiset{key})
    ensures forall b :: 0 <= b < g.buckets ==>
      var n, c := Hits(g, key, b), counts[b] as nat;
      Debt(g, Subtracted(g, counts, key), keys - multiset{key}, b) ==
        if key in keys then Debt(g, counts, keys, b) - (if n > c then n - c else 0) else Debt(g, counts, keys, b) + Min(c, n)
    ensures key in keys && Exact(g, counts, keys) ==> Exact(g, Subtracted(g, counts, key), keys - multiset{key})
  {
    hide Hits, Load;
    if key in keys {
      forall b | 0 <= b < g.buckets ensures Load(g, keys, b) == Hits(g, key, b) + Load(g, keys - multiset{key}, b) {
        LoadSplit(g, keys, key, b);
      }
    } else {
      assert keys - multiset{key} == keys;
    }
  }

  // ---------------------------------------------------------------- when the filter forgets

  function SubtractedAll(g: Geometry, counts: seq<byte>, gone: seq<ContentHash>): seq<byte>
    requires g.buckets > 0
  {
    if gone == [] then counts else Subtracted(g, SubtractedAll(g, counts, gone[..|gone| - 1]), gone[|gone| - 1])
  }

  lemma {:induction false} SubtractedAllAt(g: Geometry, counts: seq<byte>, gone: seq<ContentHash>, b: nat)
    requires g.buckets > 0 && b < |counts|
    ensures |SubtractedAll(g, counts, gone)| == |counts|
    ensures SubtractedAll(g, counts, gone)[b] == SatSub(counts[b], Load(g, multiset(gone), b))
  {
    hide Hits;
    if gone != [] {
      var n := |gone| - 1;
      SubtractedAllAt(g, counts, gone[..n], b);
      assert gone[..n] + [gone[n]] == gone;
      assert multiset(gone) == multiset(gone[..n]) + multiset{gone[n]};
      LoadMore(g, multiset(gone[..n]), gone[n], b);
    }
  }

  /** Keys can be removed so that one that is still in is denied. */
  ghost predicate CanForget(g: Geometry, counts: seq<byte>, keys: multiset<ContentHash>)
    requires g.buckets > 0
  {
    exists gone: seq<ContentHash>, k :: multiset(gone) <= keys && k in keys - multiset(gone) && Denies(g, SubtractedAll(g, counts, gone), k)
  }

  /** A counter is short of as much as one of its keys brings. */
  ghost predicate Overdrawn(g: Geometry, counts: seq<byte>, keys: multiset<ContentHash>)
    requires g.buckets > 0 && Below(g, counts, keys)
  {
    exists k, b :: k in keys && 0 <= b < g.buckets && 0 < Hits(g, k, b) <= Debt(g, counts, keys, b)
  }

  lemma ForgetsIff(g: Geometry, counts: seq<byte>, keys: multiset<ContentHash>)
    requires g.buckets > 0 && Below(g, counts, keys)
    ensures CanForget(g, counts, keys) <==> Overdrawn(g, counts, keys)
  {
    hide Hits, Load, SubtractedAll;
    if CanForget(g, counts, keys) {
      var gone: seq<ContentHash>, k :| multiset(gone) <= keys && k in keys - multiset(gone) && Denies(g, SubtractedAll(g, counts, gone), k);
      var b :| 0 <= b < |SubtractedAll(g, counts, gone)| && SubtractedAll(g, counts, gone)[b] == 0 && Hits(g, k, b) > 0;
      ForgottenIsOwed(g, counts, keys, gone, k, b);
    }
    if Overdrawn(g, counts, keys) {
      var k, b :| k in keys && 0 <= b < g.buckets && 0 < Hits(g, k, b) <= Debt(g, counts, keys, b);
      OwedIsForgotten(g, counts, keys, k, b);
    }
  }

  lemma ForgottenIsOwed(g: Geometry, counts: seq<byte>, keys: multiset<ContentHash>, gone: seq<ContentHash>, k: ContentHash, b: nat)
    requires g.buckets > 0 && Below(g, counts, keys) && multiset(gone) <= keys && k in keys - multiset(gone)
    requires b < |SubtractedAll(g, counts, gone)| && SubtractedAll(g, counts, gone)[b] == 0 && Hits(g, k, b) > 0
    ensures b < g.buckets && Hits(g, k, b) <= Debt(g, counts, keys, b)
  {
    hide Hits, Load;
    SubtractedAllAt(g, counts, gone, 0);
    SubtractedAllAt(g, counts, gone, b);
    LoadWithout(g, keys, multiset(gone), b);
    LoadSplit(g, keys - multiset(gone), k, b);
  }

  /** Remove every other key. */
  lemma OwedIsForgotten(g: Geometry, counts: seq<byte>, keys: multiset<ContentHash>, k: ContentHash, b: nat)
    requires g.buckets > 0 && Below(g, counts, keys) && k in keys && b < g.buckets && 0 < Hits(g, k, b) <= Debt(g, counts, keys, b)
    ensures CanForget(g, counts, keys)
  {
    hide Hits, Load;
    var gone := Listed(keys - multiset{k});
    SubtractedAllAt(g, counts, gone, b);
    LoadSplit(g, keys, k, b);
    assert SubtractedAll(g, counts, gone)[b] == 0;
    assert keys - multiset(gone) == multiset{k};
    assert Denies(g, SubtractedAll(g, counts, gone), k);
  }

  ghost function Listed(keys: multiset<ContentHash>): (s: seq<ContentHash>)
    ensures multiset(s) == keys
  {
    if keys == multiset{} then []
    else
      var k :| k in keys;
      Listed(keys - multiset{k}) + [k]
  }

  /** The hashes of the key are all different. */
  predicate Spread(g: Geometry, key: ContentHash)
    requires g.buckets > 0
  {
    forall b :: 0 <= b < g.buckets ==> Hits(g, key, b) <= 1
  }

  /** For keys that hit no bucket twice, any shortage at all is enough. */
  lemma SpreadForgetsIff(g: Geometry, counts: seq<byte>, keys: multiset<ContentHash>)
    requires g.buckets > 0 && Below(g, counts, keys) && forall k :: k in keys ==> Spread(g, k)
    ensures CanForget(g, counts, keys) <==> !Exact(g, counts, keys)
  {
    hide Hits, CanForget;
    ForgetsIff(g, counts, keys);
    if !Exact(g, counts, keys) {
      var b :| 0 <= b < g.buckets && counts[b] as nat != Load(g, keys, b);
      var k := SomeHit(g, keys, b);
      assert Spread(g, k) && Debt(g, counts, keys, b) > 0;
    }
  }

  lemma {:induction false} SomeHit(g: Geometry, keys: multiset<ContentHash>, b: nat) returns (k: ContentHash)
    requires g.buckets > 0 && Load(g, keys, b) > 0
    ensures k in keys && Hits(g, k, b) > 0
    decreases |keys|
  {
    hide Hits;
    k :| k in keys && Load(g, keys, b) == Hits(g, k, b) + Load(g, keys - multiset{k}, b);
    if Hits(g, k, b) == 0 { k := SomeHit(g, keys - multiset{k}, b); }
  }

  // ---------------------------------------------------------------- histories

  datatype Change = Put(key: ContentHash) | Take(key: ContentHash)

  datatype Filter = Filter(counts: seq<byte>, keys: multiset<ContentHash>)

  function Changed(g: Geometry, f: Filter, c: Change): Filter
    requires g.buckets > 0
  {
    match c
    case Put(k) => Filter(Added(g, f.counts, k), f.keys + multiset{k})
    case Take(k) => Filter(Subtracted(g, f.counts, k), f.keys - multiset{k})
  }

  function After(g: Geometry, changes: seq<Change>): Filter
    requires g.buckets > 0
  {
    if changes == [] then Filter(seq(g.buckets, _ => 0), multiset{})
    else Changed(g, After(g, changes[..|changes| - 1]), changes[|changes| - 1])
  }

  /** As the registry uses it: only keys that are in are taken out. */
  ghost predicate Orderly(g: Geometry, changes: seq<Change>)
    requires g.buckets > 0
  {
    forall n :: 0 <= n < |changes| && changes[n].Take? ==> changes[n].key in After(g, changes[..n]).keys
  }

  /** The `n`-th change is an insertion and meets a full counter. */
  predicate MeetsFull(g: Geometry, changes: seq<Change>, n: nat)
    requires g.buckets > 0 && n < |changes|
  {
    changes[n].Put? && !Room(g, After(g, changes[..n]).counts, changes[n].key)
  }

  /** Keys that are in now can be removed so that one that is still in is denied. */
  ghost predicate Forgets(g: Geometry, changes: seq<Change>)
    requires g.buckets > 0
  {
    CanForget(g, After(g, changes).counts, After(g, changes).keys)
  }

  lemma {:induction false} AfterBelow(g: Geometry, changes: seq<Change>, n: nat)
    requires g.buckets > 0 && Orderly(g, changes) && n <= |changes|
    ensures var f := After(g, changes[..n]); Below(g, f.counts, f.keys)
    ensures (forall m :: 0 <= m < n ==> !MeetsFull(g, changes, m)) ==> var f := After(g, changes[..n]); Exact(g, f.counts, f.keys)
  {
    hide Hits, Below, Exact, Changed;
    if n == 0 {
      NothingYet(g);
    } else {
      AfterBelow(g, changes, n - 1);
      assert changes[..n][..n - 1] == changes[..n - 1];
      ChangedBelow(g, After(g, changes[..n - 1]), changes[n - 1]);
      assert changes[n - 1].Put? ==> Room(g, After(g, changes[..n - 1]).counts, changes[n - 1].key) || MeetsFull(g, changes, n - 1);
    }
  }

  lemma ChangedBelow(g: Geometry, f: Filter, c: Change)
    requires g.buckets > 0 && Below(g, f.counts, f.keys) && (c.Take? ==> c.key in f.keys)
    ensures var f' := Changed(g, f, c);
            && Below(g, f'.counts, f'.keys)
            && (Exact(g, f.counts, f.keys) && (c.Put? ==> Room(g, f.counts, c.key)) ==> Exact(g, f'.counts, f'.keys))
  {
    hide Room, Below, Exact;
    if c.Put? { AddedDebt(g, f.counts, f.keys, c.key); } else { SubtractedDebt(g, f.counts, f.keys, c.key); }
  }

  lemma NothingYet(g: Geometry)
    requires g.buckets > 0
    ensures var f := After(g, []); f.keys == multiset{} && Exact(g, f.counts, f.keys) && Below(g, f.counts, f.keys)
  {
  }

  /** At every point of every history, whatever the keys: what is removed next can make the filter deny a key that is in
      exactly if a counter is then short of as much as one of its keys brings. */
  lemma HistoryForgetsIff(g: Geometry, changes: seq<Change>, n: nat)
    requires g.buckets > 0 && Orderly(g, changes) && n <= |changes|
    ensures var f := After(g, changes[..n]); Below(g, f.counts, f.keys) && (Forgets(g, changes[..n]) <==> Overdrawn(g, f.counts, f.keys))
  {
    hide Hits, CanForget, Below, Overdrawn;
    AfterBelow(g, changes, n);
    ForgetsIff(g, After(g, changes[..n]).counts, After(g, changes[..n]).keys);
  }

  /** As long as no insertion has met a full counter the counters are exact and nothing can be forgotten, whatever the
      keys. */
  lemma RoomRemembers(g: Geometry, changes: seq<Change>, n: nat)
    requires g.buckets > 0 && Orderly(g, changes) && n <= |changes|
    requires forall m :: 0 <= m < n ==> !MeetsFull(g, changes, m)
    ensures var f := After(g, changes[..n]); Exact(g, f.counts, f.keys) && !Forgets(g, changes[..n])
  {
    hide Hits, CanForget, MeetsFull;
    HistoryForgetsIff(g, changes, n);
    AfterBelow(g, changes, n);
  }

  lemma {:induction false} KeysSpread(g: Geometry, changes: seq<Change>, n: nat)
    requires g.buckets > 0 && n <= |changes| && forall m :: 0 <= m < |changes| ==> Spread(g, changes[m].key)
    ensures forall k :: k in After(g, changes[..n]).keys ==> Spread(g, k)
  {
    hide Spread, Added, Subtracted;
    if n == 0 {
      NothingYet(g);
    } else {
      KeysSpread(g, changes, n - 1);
      assert changes[..n][..n - 1] == changes[..n - 1];
    }
  }

  /** For keys that hit no bucket twice the safe condition is exact: at every point of a history the filter remembers,
      whatever is removed after it, if and only if no insertion of the history met a full counter. */
  lemma NeverForgetsIff(g: Geometry, changes: seq<Change>)
    requires g.buckets > 0 && Orderly(g, changes) && forall m :: 0 <= m < |changes| ==> Spread(g, changes[m].key)
    ensures (forall n :: 0 <= n <= |changes| ==> !Forgets(g, changes[..n])) <==> forall n :: 0 <= n < |changes| ==> !MeetsFull(g, changes, n)
  {
    hide Hits, Spread, CanForget, Below, Exact, MeetsFull, Orderly;
    if forall n :: 0 <= n < |changes| ==> !MeetsFull(g, changes, n) {
      forall n | 0 <= n <= |changes| ensures !Forgets(g, changes[..n]) { RoomRemembers(g, changes, n); }
    }
    if n :| 0 <= n < |changes| && MeetsFull(g, changes, n) {
      FullIsInexact(g, changes, n);
      AfterBelow(g, changes, n + 1);
      KeysSpread(g, changes, n + 1);
      SpreadForgetsIff(g, After(g, changes[..n + 1]).counts, After(g, changes[..n + 1]).keys);
      assert Forgets(g, changes[..n + 1]);
    }
  }

  lemma FullIsInexact(g: Geometry, changes: seq<Change>, n: nat)
    requires g.buckets > 0 && Orderly(g, changes) && n < |changes| && MeetsFull(g, changes, n)
    ensures var f := After(g, changes[..n + 1]); !Exact(g, f.counts, f.keys)
  {
    hide Below, Exact, Room, Changed;
    AfterBelow(g, changes, n);
    assert changes[..n + 1][..n] == changes[..n];
    FullPut(g, After(g, changes[..n]), changes[n].key);
  }

  lemma FullPut(g: Geometry, f: Filter, k: ContentHash)
    requires g.buckets > 0 && Below(g, f.counts, f.keys) && !Room(g, f.counts, k)
    ensures var f' := Changed(g, f, Put(k)); !Exact(g, f'.counts, f'.keys)
  {
    hide Below, Exact, Room, Added;
    AddedDebt(g, f.counts, f.keys, k);
  }

  // ---------------------------------------------------------------- the class

  lemma CountsSnoc(s: seq<nat>, i: nat)
    requires i < |s|
    ensures forall b :: multiset(s[..i + 1])[b] == multiset(s[..i])[b] + if s[i] == b then 1 else 0
  {
    assert s[..i + 1] == s[..i] + [s[i]];
  }

  class CountingBloomFilter {
    const geometry: Geometry
    const counters: array<byte>
    var items: nat
    ghost var keys: multiset<ContentHash>  // inserted and not yet removed

    ghost predicate Valid() reads this, counters {
      geometry.buckets > 0 && Below(geometry, counters[..], keys)
    }

    constructor (geometry: Geometry)
      requires geometry.buckets > 0
      ensures Valid() && fresh(counters) && this.geometry == geometry && keys == multiset{} && items == 0
      ensures Exact(geometry, counters[..], keys)
    {
      this.geometry, this.items, this.keys := geometry, 0, multiset{};
      counters := new byte[geometry.buckets](_ => 0);
    }

    /** All the keys are inserted, in any order. */
    constructor WithExisting(geometry: Geometry, hashes: set<ContentHash>)
      requires geometry.buckets > 0
      ensures Valid() && fresh(counters) && this.geometry == geometry && keys == multiset(hashes)
      ensures Exact(geometry, counters[..], keys) <==> Fits(geometry, keys)
    {
      this.geometry, this.items, this.keys := geometry, 0, multiset{};
      counters := new byte[geometry.buckets](_ => 0);
      new;
      NothingFits(geometry);
      InsertAll(hashes);
    }

    method InsertAll(hashes: set<ContentHash>)
      requires Valid() && keys == multiset{} && Exact(geometry, counters[..], keys) && Fits(geometry, keys)
      modifies this, counters
      ensures Valid() && keys == multiset(hashes) && (Exact(geometry, counters[..], keys) <==> Fits(geometry, keys))
    {
      hide Exact, Fits, Load, Below;
      var todo := hashes;
      assert hashes - todo == {};
      while todo != {}
        invariant Valid() && todo <= hashes && keys == multiset(hashes - todo)
        invariant Exact(geometry, counters[..], keys) <==> Fits(geometry, keys)
        decreases todo
      {
        var h :| h in todo;
        if Fits(geometry, keys + multiset{h}) { FitsBefore(geometry, keys, h); }
        Insert(h);
        assert hashes - (todo - {h}) == hashes - todo + {h};
        todo := todo - {h};
      }
      assert hashes - todo == hashes;
    }

    /** The insertion's loop: add one for every index, repeated ones included, up to 255. */
    method AddAll(s: seq<nat>)
      requires forall i :: 0 <= i < |s| ==> s[i] < counters.Length
      modifies counters
      ensures forall b :: 0 <= b < counters.Length ==> counters[b] == SatAdd(old(counters[b]), multiset(s)[b])
    {
      for i := 0 to |s|
        invariant forall b :: 0 <= b < counters.Length ==> counters[b] == SatAdd(old(counters[b]), multiset(s[..i])[b])
      {
        CountsSnoc(s, i);
        if counters[s[i]] != U8_MAX { counters[s[i]] := counters[s[i]] + 1; }
      }
      assert s[..|s|] == s;
    }

    method SubtractAll(s: seq<nat>)
      requires forall i :: 0 <= i < |s| ==> s[i] < counters.Length
      modifies counters
      ensures forall b :: 0 <= b < counters.Length ==> counters[b] == SatSub(old(counters[b]), multiset(s)[b])
    {
      for i := 0 to |s|
        invariant forall b :: 0 <= b < counters.Length ==> counters[b] == SatSub(old(counters[b]), multiset(s[..i])[b])
      {
        CountsSnoc(s, i);
        if counters[s[i]] != 0 { counters[s[i]] := counters[s[i]] - 1; }
      }
      assert s[..|s|] == s;
    }

    /** The counters stay exact as long as every insertion finds room. */
    method Insert(key: ContentHash)
      requires Valid()
      modifies this, counters
      ensures Valid() && keys == old(keys) + multiset{key} && items == old(items) + 1
      ensures counters[..] == Added(geometry, old(counters[..]), key)
      ensures Exact(geometry, counters[..], keys) == (old(Exact(geometry, counters[..], keys)) && Fits(geometry, keys))
    {
      hide Load, Exact, Fits;
      ghost var before := counters[..];
      AddAll(Indexes(geometry, key));
      assert counters[..] == Added(geometry, before, key);
      AddedDebt(geometry, before, keys, key);
      items := items + 1;
      keys := keys + multiset{key};
    }

    /** Any key can be removed, also one that is not in. */
    method Remove(key: ContentHash)
      requires Valid()
      modifies this, counters
      ensures Valid() && keys == old(keys) - multiset{key} && items == if old(items) == 0 then 0 else old(items) - 1
      ensures counters[..] == Subtracted(geometry, old(counters[..]), key)
      ensures key in old(keys) && old(Exact(geometry, counters[..], keys)) ==> Exact(geometry, counters[..], keys)
    {
      hide Load, Exact;
      ghost var before := counters[..];
      SubtractAll(Indexes(geometry, key));
      assert counters[..] == Subtracted(geometry, before, key);
      SubtractedDebt(geometry, before, keys, key);
      items := if items == 0 then 0 else items - 1;
      keys := keys - multiset{key};
    }

    /** Never a wrong no while the counters are exact. */
    method MightContain(key: ContentHash) returns (maybe: bool)
      requires Valid()
      ensures maybe <==> !Denies(geometry, counters[..], key)
      ensures Exact(geometry, counters[..], keys) && key in keys ==> maybe
    {
      hide Load, Hits;
      var s := Indexes(geometry, key);
      forall b: nat ensures Hits(geometry, key, b) > 0 <==> exists i :: 0 <= i < geometry.hashes && Index(geometry, key, i) == b {
        HitsIndex(geometry, key, b);
      }
      for i := 0 to |s|
        invariant forall j :: 0 <= j < i ==> counters[Index(geometry, key, j)] != 0
      {
        if counters[s[i]] == 0 {
          assert counters[..][s[i]] == 0 && Index(geometry, key, i) == s[i];
          if key in keys { LoadSplit(geometry, keys, key, s[i]); }
          return false;
        }
      }
      maybe := true;
    }
  }

  // ---------------------------------------------------------------- the filtered registry

  /** `CapsuleRegistry` with its filter: the content methods that consult or maintain it. */
  class FilteredRegistry {
    const registry: CapsuleRegistry
    const filter: CountingBloomFilter

    /** Every stored key is in the filter, as often as it was registered since it was last absent. */
    ghost predicate Valid() reads this, registry, filter, filter.counters {
      && registry.Valid() && filter.Valid()
      && forall h :: h in registry.contentStore ==> h in filter.keys
    }

    ghost function View(): Front reads this, registry, filter, filter.counters {
      Front(Filter(filter.counters[..], filter.keys), registry.View())
    }

    constructor (registry: CapsuleRegistry, geometry: Geometry)
      requires registry.Valid() && geometry.buckets > 0
      ensures Valid() && fresh(filter) && fresh(filter.counters) && this.registry == registry && filter.geometry == geometry
      ensures registry.View() == old(registry.View()) && filter.keys == multiset(registry.contentStore.Keys)
      ensures Exact(geometry, filter.counters[..], filter.keys) <==> Fits(geometry, filter.keys)
    {
      this.registry := registry;
      filter := new CountingBloomFilter.WithExisting(geometry, registry.contentStore.Keys);
    }

    /** The filter never makes an answer up, and it never changes the answer of the content store while its counters
        are exact. */
    method LookupContent(h: ContentHash) returns (r: Option<SegmentId>)
      requires Valid()
      ensures r == Lookup(filter.geometry, filter.counters[..], registry.contentStore, h)
      ensures Exact(filter.geometry, filter.counters[..], filter.keys) ==>
        r == if h in registry.contentStore then Some(registry.contentStore[h]) else None
    {
      var maybe := filter.MightContain(h);
      if !maybe { return None; }
      r := registry.LookupContent(h);
    }

    method RegisterContent(h: ContentHash, id: SegmentId)
      requires Valid()
      modifies registry, filter, filter.counters
      ensures Valid() && View() == Registered(filter.geometry, old(View()), h, id)
    {
      registry.RegisterContent(h, id);
      filter.Insert(h);
    }

    /** Only a key that was in is ever taken out. */
    method DeregisterContent(h: ContentHash, id: SegmentId) returns (removed: bool)
      requires Valid()
      modifies registry, filter, filter.counters
      ensures Valid() && View() == Deregistered(filter.geometry, old(View()), h, id)
      ensures removed <==> h in old(registry.contentStore) && old(registry.contentStore)[h] == id
      ensures removed ==> h in old(filter.keys)
    {
      removed := registry.DeregisterContent(h, id);
      if removed { filter.Remove(h); }
    }
  }

  lemma NothingFits(g: Geometry)
    requires g.buckets > 0
    ensures Fits(g, multiset{})
  {
  }

  lemma FitsBefore(g: Geometry, keys: multiset<ContentHash>, k: ContentHash)
    requires g.buckets > 0 && Fits(g, keys + multiset{k})
    ensures Fits(g, keys)
  {
    hide Hits, Load;
    forall b | 0 <= b < g.buckets ensures Load(g, keys, b) <= Load(g, keys + multiset{k}, b) { LoadMore(g, keys, k, b); }
  }

  /** The content store's answer, unless the filter says no. */
  function Lookup(g: Geometry, counts: seq<byte>, content: map<ContentHash, SegmentId>, h: ContentHash): Option<SegmentId>
    requires g.buckets > 0
  {
    if Denies(g, counts, h) || h !in content then None else Some(content[h])
  }

  // ---------------------------------------------------------------- a stored key that is not found

  /** The registry and its filter as values. */
  datatype Front = Front(filter: Filter, reg: Catalog)

  function Registered(g: Geometry, s: Front, h: ContentHash, id: SegmentId): Front
    requires g.buckets > 0
  {
    Front(Changed(g, s.filter, Put(h)), Register(s.reg, h, id))
  }

  function Deregistered(g: Geometry, s: Front, h: ContentHash, id: SegmentId): Front
    requires g.buckets > 0
  {
    if h in s.reg.content && s.reg.content[h] == id then Front(Changed(g, s.filter, Take(h)), Deregister(s.reg, h, id)) else s
  }

  /** A new registry in which the first `n` keys have been registered, each for its own segment. */
  function Filled(g: Geometry, ks: seq<ContentHash>, n: nat): Front
    requires g.buckets > 0 && n <= |ks|
  {
    if n == 0 then Front(After(g, []), Catalog(map[], map[], 0, 0)) else Registered(g, Filled(g, ks, n - 1), ks[n - 1], n - 1)
  }

  /** Then the first `n` are deregistered again. */
  function Emptied(g: Geometry, ks: seq<ContentHash>, n: nat): Front
    requires g.buckets > 0 && n <= |ks|
  {
    if n == 0 then Filled(g, ks, |ks|) else Deregistered(g, Emptied(g, ks, n - 1), ks[n - 1], n - 1)
  }

  predicate Distinct(ks: seq<ContentHash>) { forall i, j :: 0 <= i < j < |ks| ==> ks[i] != ks[j] }

  /** Different keys that share a bucket, all registered and all but the last deregistered: the last one is still
      stored. If there were at most 255 of them it is found; from 256 on it is not, and its content would be stored
      again. */
  lemma CrowdedBucketForgets(g: Geometry, ks: seq<ContentHash>, b: nat)
    requires g.buckets >= 1024 && b < g.buckets && ks != [] && Distinct(ks)
    requires forall i :: 0 <= i < |ks| ==> Spread(g, ks[i]) && Hits(g, ks[i], b) == 1
    ensures var s, last := Emptied(g, ks, |ks| - 1), |ks| - 1;
            && ks[last] in s.reg.content && s.reg.content[ks[last]] == last
            && Lookup(g, s.filter.counts, s.reg.content, ks[last]) == if |ks| <= 255 then Some(last) else None
  {
    hide Hits, Spread, Emptied, HitsUpTo;
    var n := |ks|;
    var counts := Emptied(g, ks, n - 1).filter.counts;
    EmptiedAt(g, ks, n - 1, b);
    forall c | 0 <= c < g.buckets && Hits(g, ks[n - 1], c) > 0 ensures |counts| == g.buckets && (n <= 255 ==> counts[c] != 0) {
      EmptiedAt(g, ks, n - 1, c);
      HitsAtMost(g, ks, n, c);
      MoreHits(g, ks, n, c);
    }
    HitsAll(g, ks, n, b);
    HitsAll(g, ks, n - 1, b);
  }

  /** How often the first `n` keys hit bucket `b`. */
  function HitsUpTo(g: Geometry, ks: seq<ContentHash>, n: nat, b: nat): nat
    requires g.buckets > 0 && n <= |ks|
  {
    if n == 0 then 0 else HitsUpTo(g, ks, n - 1, b) + Hits(g, ks[n - 1], b)
  }

  lemma {:induction false} HitsAtMost(g: Geometry, ks: seq<ContentHash>, n: nat, b: nat)
    requires n <= |ks| && b < g.buckets && forall i :: 0 <= i < |ks| ==> Spread(g, ks[i])
    ensures HitsUpTo(g, ks, n, b) <= n
  {
    hide Hits;
    if n > 0 { HitsAtMost(g, ks, n - 1, b); assert Spread(g, ks[n - 1]); }
  }

  lemma {:induction false} HitsAll(g: Geometry, ks: seq<ContentHash>, n: nat, b: nat)
    requires g.buckets > 0 && n <= |ks| && forall i :: 0 <= i < |ks| ==> Hits(g, ks[i], b) == 1
    ensures HitsUpTo(g, ks, n, b) == n
  {
    hide Hits;
    if n > 0 { HitsAll(g, ks, n - 1, b); }
  }

  lemma MoreHits(g: Geometry, ks: seq<ContentHash>, n: nat, b: nat)
    requires g.buckets > 0 && 0 < n <= |ks|
    ensures HitsUpTo(g, ks, n, b) == HitsUpTo(g, ks, n - 1, b) + Hits(g, ks[n - 1], b)
  {
  }

  lemma {:induction false} FilledAt(g: Geometry, ks: seq<ContentHash>, n: nat, b: nat)
    requires b < g.buckets && n <= |ks| && Distinct(ks)
    ensures var s := Filled(g, ks, n);
            && |s.filter.counts| == g.buckets && s.filter.counts[b] == SatAdd(0, HitsUpTo(g, ks, n, b))
            && forall i :: 0 <= i < n ==> ks[i] in s.reg.content && s.reg.content[ks[i]] == i
  {
    hide Hits;
    if n > 0 { FilledAt(g, ks, n - 1, b); }
  }

  /** Every counter after the keys have been put in and the first `n` taken out. */
  lemma {:induction false} EmptiedAt(g: Geometry, ks: seq<ContentHash>, n: nat, b: nat)
    requires b < g.buckets && n <= |ks| && Distinct(ks)
    ensures var s := Emptied(g, ks, n);
            && |s.filter.counts| == g.buckets && s.filter.counts[b] == SatSub(SatAdd(0, HitsUpTo(g, ks, |ks|, b)), HitsUpTo(g, ks, n, b))
            && forall i :: n <= i < |ks| ==> ks[i] in s.reg.content && s.reg.content[ks[i]] == i
  {
    hide Hits, Filled;
    if n == 0 {
      FilledAt(g, ks, |ks|, b);
    } else {
      EmptiedAt(g, ks, n - 1, b);
      hide Emptied, HitsUpTo;
      EmptiedNext(g, ks, n);
      MoreHits(g, ks, n, b);
    }
  }

  lemma EmptiedNext(g: Geometry, ks: seq<ContentHash>, n: nat)
    requires g.buckets > 0 && 0 < n <= |ks|
    ensures Emptied(g, ks, n) == Deregistered(g, Emptied(g, ks, n - 1), ks[n - 1], n - 1)
  {
  }
}
