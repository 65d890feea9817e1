/** The capsule registry: capsules, content store, segment-id allocator, and the references they make. */
module Registry {
  import opened Types

  /** `nextId` is the allocator in memory and `savedId` the one in the metadata file: every change of
      `capsules` or `content` saves the file, allocating an id alone does not. */
  datatype Catalog = Catalog(
    capsules: map<CapsuleId, Capsule>,
    content: map<ContentHash, SegmentId>,
    nextId: nat,
    savedId: nat)

  datatype RegistryState = RegistryState(
    capsules: map<CapsuleId, Capsule>, nextSegmentId: nat, contentStore: map<ContentHash, SegmentId>)

  // ---------------------------------------------------------------- operations

  function Alloc(r: Catalog): Catalog { r.(nextId := r.nextId + 1) }

  function Register(r: Catalog, h: ContentHash, id: SegmentId): Catalog {
    r.(content := r.content[h := id], savedId := r.nextId)
  }

  function Deregister(r: Catalog, h: ContentHash, id: SegmentId): Catalog {
    if h in r.content && r.content[h] == id then r.(content := r.content - {h}, savedId := r.nextId) else r
  }

  function Create(r: Catalog, cid: CapsuleId, c: Capsule): Catalog {
    if cid in r.capsules then r else r.(capsules := r.capsules[cid := c], savedId := r.nextId)
  }

  function Drop(r: Catalog, cid: CapsuleId): Catalog {
    if cid in r.capsules then r.(capsules := r.capsules - {cid}, savedId := r.nextId) else r
  }

  /** Opening the metadata file. */
  function Reloaded(r: Catalog): Catalog { r.(nextId := r.savedId) }

  // ---------------------------------------------------------------- references

  /** Every segment occurrence of every capsule, with multiplicity. */
  ghost function Refs(capsules: map<CapsuleId, Capsule>): multiset<SegmentId>
    decreases |capsules|
  {
    if capsules == map[] then multiset{}
    else
      var c :| c in capsules;
      multiset(capsules[c].segments) + Refs(capsules - {c})
  }

  lemma {:induction false} RefsSplit(capsules: map<CapsuleId, Capsule>, c: CapsuleId)
    requires c in capsules
    ensures Refs(capsules) == multiset(capsules[c].segments) + Refs(capsules - {c})
    decreases |capsules|
  {
    var d :| d in capsules && Refs(capsules) == multiset(capsules[d].segments) + Refs(capsules - {d});
    if d != c {
      RefsSplit(capsules - {d}, c);
      RefsSplit(capsules - {c}, d);
      assert capsules - {d} - {c} == capsules - {c} - {d};
    }
  }

  lemma RefsCreate(capsules: map<CapsuleId, Capsule>, cid: CapsuleId, c: Capsule)
    requires cid !in capsules
    ensures Refs(capsules[cid := c]) == Refs(capsules) + multiset(c.segments)
  {
    RefsSplit(capsules[cid := c], cid);
    assert capsules[cid := c] - {cid} == capsules;
  }

  lemma {:induction false} RefsMember(capsules: map<CapsuleId, Capsule>, id: SegmentId)
    ensures id in Refs(capsules) <==> exists c :: c in capsules && id in capsules[c].segments
    decreases |capsules|
  {
    if capsules != map[] {
      var d :| d in capsules && Refs(capsules) == multiset(capsules[d].segments) + Refs(capsules - {d});
      RefsMember(capsules - {d}, id);
      assert forall c :: c in capsules <==> c == d || c in capsules - {d};
      if id in Refs(capsules - {d}) {
        var c :| c in capsules - {d} && id in (capsules - {d})[c].segments;
        assert c in capsules && id in capsules[c].segments;
      }
    }
  }

  // ---------------------------------------------------------------- the class

  class CapsuleRegistry {
    var capsules: map<CapsuleId, Capsule>
    var contentStore: map<ContentHash, SegmentId>
    var nextSegmentId: nat
    var metadataFile: RegistryState

    ghost predicate Valid() reads this {
      metadataFile.capsules == capsules && metadataFile.contentStore == contentStore
    }

    ghost function View(): Catalog reads this {
      Catalog(capsules, contentStore, nextSegmentId, metadataFile.nextSegmentId)
    }

    constructor Open(file: RegistryState)
      ensures Valid() && View() == Catalog(file.capsules, file.contentStore, file.nextSegmentId, file.nextSegmentId)
    {
      metadataFile := file;
      capsules, contentStore, nextSegmentId := file.capsules, file.contentStore, file.nextSegmentId;
    }

    method Save()
      modifies this`metadataFile
      ensures Valid() && metadataFile.nextSegmentId == nextSegmentId
    {
      metadataFile := RegistryState(capsules, nextSegmentId, contentStore);
    }

    method AllocSegment() returns (id: SegmentId)
      requires Valid()
      modifies this`nextSegmentId
      ensures Valid() && View() == Alloc(old(View())) && id == old(nextSegmentId)
    {
      id := nextSegmentId;
      nextSegmentId := nextSegmentId + 1;
    }

    method CreateCapsuleWithSegments(cid: CapsuleId, size: nat, segments: seq<SegmentId>, policy: Policy)
      returns (r: Result<()>)
      requires Valid()
      modifies this
      ensures Valid() && View() == Create(old(View()), cid, Capsule(size, segments, policy))
      ensures r == if cid in old(capsules) then Err(CapsuleCollision) else Ok(())
    {
      if cid in capsules { return Err(CapsuleCollision); }
      capsules := capsules[cid := Capsule(size, segments, policy)];
      Save();
      r := Ok(());
    }

    method Lookup(cid: CapsuleId) returns (r: Result<Capsule>)
      ensures r == if cid in capsules then Ok(capsules[cid]) else Err(CapsuleNotFound)
    {
      r := if cid in capsules then Ok(capsules[cid]) else Err(CapsuleNotFound);
    }

    method LookupContent(h: ContentHash) returns (r: Option<SegmentId>)
      ensures r == if h in contentStore then Some(contentStore[h]) else None
    {
      r := if h in contentStore then Some(contentStore[h]) else None;
    }

    method RegisterContent(h: ContentHash, id: SegmentId)
      requires Valid()
      modifies this
      ensures Valid() && View() == Register(old(View()), h, id)
    {
      contentStore := contentStore[h := id];
      Save();
    }

    method DeregisterContent(h: ContentHash, id: SegmentId) returns (removed: bool)
      requires Valid()
      modifies this
      ensures Valid() && View() == Deregister(old(View()), h, id)
      ensures removed <==> h in old(contentStore) && old(contentStore)[h] == id
    {
      removed := false;
      if h in contentStore && contentStore[h] == id {
        contentStore := contentStore - {h};
        Save();
        removed := true;
      }
    }

    method DeleteCapsule(cid: CapsuleId) returns (r: Result<Capsule>)
      requires Valid()
      modifies this
      ensures Valid() && View() == Drop(old(View()), cid)
      ensures r == if cid in old(capsules) then Ok(old(capsules)[cid]) else Err(CapsuleNotFound)
    {
      if cid !in capsules { return Err(CapsuleNotFound); }
      r := Ok(capsules[cid]);
      capsules := capsules - {cid};
      Save();
    }
  }
}
