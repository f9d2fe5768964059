/** What the feed accepts in any state of its stores, well made or not. */
module FeedReads {
  import opened Bits
  import opened Wrappers
  import H = Hamt
  import HR = HamtReads
  import opened Heads
  import opened Feed

  /** The head commit speaks for the value, and the value's target is the one that
      commit left. */
  predicate Bound(st: Stores, name: string, v: RefValue) {
    && v.headCommit.Some? && v.headCommit.value in st.objects
    && v.name == name
    && (var c := v.headCommit.value.commit;
        && c.header.resource == name && c.header.generation == v.generation && c.header.epoch <= v.epoch
        && v.target == if c.Append? then v.headCommit else c.refState.target)
  }

  /** A manifest stands for 1 to its head, or from past its floor, with an entry
      at most per sequence. */
  predicate WellMade(name: string, header: Header, m: Manifest) {
    && header.resource == name && m.log == name && header.epoch == m.epoch
    && (m.catalog.None? ==> m.headSeq == 0 && m.trimBefore == 0 && m.index.entries == 0)
    && (m.catalog.Some? ==>
          && m.catalog.value.first == m.trimBefore + 1 && m.catalog.value.last == m.headSeq
          && 1 <= m.catalog.value.count <= m.headSeq - m.trimBefore
          && 1 <= m.index.entries <= m.headSeq)
  }

  lemma ValidIsWellMade(name: string, header: Header, m: Manifest)
    ensures ValidManifest(name, header, m) <==> WellMade(name, header, m)
  {
  }

  /** In any state: a value that never published has no manifest; any other has one
      exactly when head and target bind and the manifest is well made, and anything
      else is an integrity failure. */
  lemma PublicationOnAnyState(st: Stores, name: string, v: RefValue, m: Manifest)
    ensures var unset := v.generation == 0 && v.headCommit.None? && v.target.None?;
            var r := Publication(st, name, v);
            && (r == Ok(Some(m))
                <==> && !unset && Bound(st, name, v) && v.target.Some? && v.target.value in st.objects
                     && v.target.value.commit.Append? && v.target.value.commit.manifest == m
                     && WellMade(name, v.target.value.commit.header, m))
            && (r == Ok(None) <==> unset || (Bound(st, name, v) && v.target.None?))
            && (r.Err? ==> r == Err(Integrity))
  {
    hide ValidManifest, WellMade;
    if v.target.Some? && v.target.value.commit.Append? {
      ValidIsWellMade(name, v.target.value.commit.header, v.target.value.commit.manifest);
    }
  }

  /** In any state: a lookup that finds or conflicts read a stored entry of the key
      that was asked, with these bytes or with others. */
  lemma LookupOnAnyState(st: Stores, name: string, v: RefValue, key: H.Key, payload: seq<Byte>)
    ensures var r := LookupCommitted(st, name, v, key, payload);
            && (r.Ok? && r.value.Some? ==>
                  exists e: H.Entry ::
                    && H.Digest(H.Leaf(e)) in st.nodes && e.key == key && e.payloadHash == payload
                    && e.generation <= v.generation
                    && r.value.value == Receipt(payload, e.first, e.last, e.generation))
            && (r.Err? && r.error.KeyConflict? ==>
                  exists e: H.Entry ::
                    && H.Digest(H.Leaf(e)) in st.nodes && e.key == key && e.payloadHash != payload
                    && r.error == KeyConflict(e.payloadHash))
            && (r.Err? ==> r.error == Integrity || r.error.KeyConflict?)
  {
    hide Publication, H.LookupSpec;
    var p := Publication(st, name, v);
    PublicationFails(st, name, v);
    if p.Ok? && p.value.Some? {
      var m := p.value.value;
      var head := H.Head(v.generation, m.headSeq);
      var found := H.LookupSpec(st.nodes, m.index, key, head);
      if found.Ok? {
        HR.LookupOnAnyStore(st.nodes, m.index, key, head, found.value);
        if found.value.Some? {
          var e := FoundIsStored(st.nodes, m.index, key, head);
        }
      }
    }
  }

  lemma PublicationFails(st: Stores, name: string, v: RefValue)
    ensures Publication(st, name, v).Err? ==> Publication(st, name, v) == Err(Integrity)
  {
    hide ValidManifest;
  }

  lemma FoundIsStored(nodes: set<H.Digest>, root: H.Root, key: H.Key, head: H.Head) returns (e: H.Entry)
    requires H.LookupSpec(nodes, root, key, head).Ok? && H.LookupSpec(nodes, root, key, head).value.Some?
    ensures H.LookupSpec(nodes, root, key, head).value == Some(e)
    ensures H.Digest(H.Leaf(e)) in nodes && e.key == key && e.generation <= head.generation
  {
    hide H.LookupSpec;
    e := H.LookupSpec(nodes, root, key, head).value.value;
    HR.LookupOnAnyStore(nodes, root, key, head, Some(e));
    var way: seq<H.Digest> :|
      way != [] && way[0] == root.digest && HR.Way(nodes, key.path, 0, head, way) && HR.Says(way, key, 0, Some(e));
    HR.WayEnds(nodes, key.path, 0, head, way);
    assert way[|way| - 1] == H.Digest(H.Leaf(e));
  }
}
