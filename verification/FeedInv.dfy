/** What every value the feed's ref ever held says about its stores: the chain
    below it, the log that chain appended, and the manifest that describes it. */
module FeedInv {
  import opened Bits
  import opened Wrappers
  import H = Hamt
  import HP = HamtProof
  import HT = HamtTheorems
  import C = Catalog
  import CP = CatalogProof
  import CT = CatalogTheorems
  import opened Heads
  import opened Feed

  // ---- reading a chain ---------------------------------------------------------------

  function History(head: Option<Digest>): seq<Digest>
    decreases head
  {
    match head
    case None => []
    case Some(d) => History(d.commit.header.parent) + [d]
  }

  function Tip(h: seq<Digest>): Option<Digest> {
    if h == [] then None else Some(h[|h| - 1])
  }

  /** The log a chain appended, one entry per append commit. */
  function Log(h: seq<Digest>): seq<H.Entry> {
    if h == [] then []
    else
      var d := h[|h| - 1];
      Log(h[..|h| - 1]) + (if d.commit.Append? then [d.commit.manifest.admission] else [])
  }

  /** The latest append commit of a chain. */
  function Latest(h: seq<Digest>): Option<Digest> {
    if h == [] then None
    else if h[|h| - 1].commit.Append? then Some(h[|h| - 1])
    else Latest(h[..|h| - 1])
  }

  function EpochOf(h: seq<Digest>): nat {
    if h == [] then 0 else h[|h| - 1].commit.header.epoch
  }

  predicate IsClaim(d: Digest) {
    d.commit.Plain? && d.commit.refState.lease.Some?
  }

  /** The writer of the latest claim of a chain. */
  function Claimer(h: seq<Digest>): Option<string> {
    if h == [] then None
    else if IsClaim(h[|h| - 1]) then Some(h[|h| - 1].commit.refState.lease.value.writer)
    else Claimer(h[..|h| - 1])
  }

  // ---- a well-made chain -------------------------------------------------------------------

  /** The one-event chunk an append stores for its entry, and its catalog ref. */
  function ChunkOf(e: H.Entry): seq<C.Frame> {
    [C.Frame(e.first, e.payloadHash)]
  }

  function RefOf(e: H.Entry): C.ChunkRef {
    C.ChunkRef(ChunkOf(e), e.first, e.last, 1, |e.payloadHash|)
  }

  function Refs(log: seq<H.Entry>): seq<C.ChunkRef> {
    seq(|log|, k requires 0 <= k < |log| => RefOf(log[k]))
  }

  /** A manifest's counters, catalog and index all stand for the same log. */
  ghost predicate Describes(st: Stores, m: Manifest, name: string, epoch: nat, generation: nat, log: seq<H.Entry>) {
    && m.log == name && m.epoch == epoch && m.headSeq == |log| && m.trimBefore == 0
    && CT.Represents(st.cat, m.catalog, Refs(log))
    && HT.Represents(st.nodes, m.index, HT.SetOf(log), H.Head(generation, |log|))
    && |HT.SetOf(log)| == |log|
  }

  predicate PlainLink(name: string, pre: seq<Digest>, d: Digest)
    requires d.commit.Plain?
  {
    var r := d.commit.refState;
    && d.commit.header.identity.Generic?
    && r.name == name && r.generation == d.commit.header.generation && r.epoch == d.commit.header.epoch
    && r.headCommit.None? && r.target == Latest(pre)
    && r.epoch == EpochOf(pre) + (if r.lease.Some? then 1 else 0)
  }

  ghost predicate AppendLink(st: Stores, name: string, pre: seq<Digest>, d: Digest)
    requires d.commit.Append?
  {
    var hd, r, m := d.commit.header, d.commit.refState, d.commit.manifest;
    var e := m.admission;
    && hd.epoch == EpochOf(pre)
    && r.lease.Some? && Claimer(pre) == Some(r.lease.value.writer)
    && r == RefValue(name, hd.generation, hd.epoch, None, r.lease, r.updatedAt, None)
    && e.first == e.last == |Log(pre)| + 1 && e.generation == hd.generation
    && hd.identity == Stable(e.key)
    && (forall x :: x in Log(pre) ==> x.key.path != e.key.path)
    && ChunkOf(e) in st.chunks && |e.payloadHash| <= MAX_CHUNK_RAW_BYTES
    && Describes(st, m, name, hd.epoch, hd.generation, Log(pre) + [e])
  }

  ghost predicate Link(st: Stores, name: string, pre: seq<Digest>, d: Digest) {
    && d in st.objects
    && d.commit.header.resource == name && d.commit.header.generation == |pre| + 1
    && d.commit.header.parent == Tip(pre)
    && (if d.commit.Plain? then PlainLink(name, pre, d) else AppendLink(st, name, pre, d))
  }

  ghost predicate GoodChain(st: Stores, name: string, h: seq<Digest>) {
    h == [] || (GoodChain(st, name, h[..|h| - 1]) && Link(st, name, h[..|h| - 1], h[|h| - 1]))
  }

  /** A value the ref may hold: what it says agrees with its chain. */
  ghost predicate GoodValue(st: Stores, name: string, v: RefValue) {
    var h := History(v.headCommit);
    && GoodChain(st, name, h)
    && v.name == name && v.generation == |h| && v.epoch == EpochOf(h) && v.target == Latest(h)
    && (v.lease.Some? ==> Claimer(h) == Some(v.lease.value.writer))
  }

  // ---- growth of the stores -------------------------------------------------------------------

  lemma DescribesGrows(st: Stores, st': Stores, m: Manifest, name: string, epoch: nat, generation: nat,
                       log: seq<H.Entry>)
    requires Describes(st, m, name, epoch, generation, log) && Grown(st, st')
    ensures Describes(st', m, name, epoch, generation, log)
  {
    hide Refs, HT.SetOf, HP.Build, CP.Build, CP.Contiguous;
    HP.StoredStays(st.nodes, st'.nodes, m.index.digest);
    if Refs(log) != [] {
      CP.StoredStays(st.cat, st'.cat, m.catalog.value.digest);
    }
  }

  lemma {:induction false} ChainGrows(st: Stores, st': Stores, name: string, h: seq<Digest>)
    requires GoodChain(st, name, h) && Grown(st, st')
    ensures GoodChain(st', name, h)
  {
    hide Describes;
    if h != [] {
      var pre, d := h[..|h| - 1], h[|h| - 1];
      ChainGrows(st, st', name, pre);
      if d.commit.Append? {
        DescribesGrows(st, st', d.commit.manifest, name, d.commit.header.epoch, d.commit.header.generation,
                       Log(pre) + [d.commit.manifest.admission]);
      }
    }
  }

  lemma ValueGrows(st: Stores, st': Stores, name: string, v: RefValue)
    requires GoodValue(st, name, v) && Grown(st, st')
    ensures GoodValue(st', name, v)
  {
    ChainGrows(st, st', name, History(v.headCommit));
  }

  // ---- what a good chain says ---------------------------------------------------------------------

  /** The latest append of a good chain is stored, valid, and describes the whole
      log of the chain. */
  lemma {:induction false} LatestDescribes(st: Stores, name: string, h: seq<Digest>)
    requires GoodChain(st, name, h)
    ensures Latest(h).None? <==> Log(h) == []
    ensures Latest(h).Some? ==>
              var d := Latest(h).value;
              && d in st.objects && d.commit.Append? && d.commit.header.resource == name
              && d.commit.header.generation <= |h|
              && Describes(st, d.commit.manifest, name, d.commit.header.epoch, d.commit.header.generation, Log(h))
  {
    hide Describes;
    if h != [] {
      LatestDescribes(st, name, h[..|h| - 1]);
      assert h[|h| - 1].commit.Plain? ==> Log(h) == Log(h[..|h| - 1]);
    }
  }

  lemma {:induction false} LogIsNumbered(st: Stores, name: string, h: seq<Digest>, k: nat)
    requires GoodChain(st, name, h) && k < |Log(h)|
    ensures Log(h)[k].first == Log(h)[k].last == k + 1 && ChunkOf(Log(h)[k]) in st.chunks
    ensures forall j :: 0 <= j < k ==> Log(h)[j].key.path != Log(h)[k].key.path
  {
    hide Describes;
    var pre := h[..|h| - 1];
    assert forall j :: 0 <= j < |Log(pre)| ==> Log(h)[j] == Log(pre)[j];
    if k < |Log(pre)| {
      LogIsNumbered(st, name, pre, k);
    } else {
      forall j | 0 <= j < k ensures Log(h)[j].key.path != Log(h)[k].key.path {
        assert Log(pre)[j] in Log(pre);
      }
    }
  }

  // ---- chains one commit longer -------------------------------------------------------------------

  lemma ChainSnoc(st: Stores, name: string, h: seq<Digest>, d: Digest)
    requires GoodChain(st, name, h) && Link(st, name, h, d)
    ensures GoodChain(st, name, h + [d])
    ensures Log(h + [d]) == if d.commit.Append? then Log(h) + [d.commit.manifest.admission] else Log(h)
    ensures Latest(h + [d]) == if d.commit.Append? then Some(d) else Latest(h)
    ensures EpochOf(h + [d]) == d.commit.header.epoch
    ensures Claimer(h + [d]) == if IsClaim(d) then Some(d.commit.refState.lease.value.writer) else Claimer(h)
  {
    hide Describes, AppendLink, PlainLink;
    assert (h + [d])[..|h + [d]| - 1] == h;
    assert (h + [d])[|h + [d]| - 1] == d;
  }

  lemma {:induction false} LogGrows(h: seq<Digest>, h': seq<Digest>)
    requires h <= h'
    ensures Log(h) <= Log(h')
    decreases |h'|
  {
    if |h| < |h'| {
      assert h == h'[..|h|] && h <= h'[..|h'| - 1];
      LogGrows(h, h'[..|h'| - 1]);
      assert Log(h'[..|h'| - 1]) <= Log(h');
    } else {
      assert h == h';
    }
  }

  lemma TipIsHead(head: Option<Digest>)
    ensures Tip(History(head)) == head
  {
  }

  // ---- binding never fails on a good value -------------------------------------------------------------

  /** The counts a described manifest holds: head sequence, last sequence and
      chunk count of the catalog, and entries of the index are one number. */
  lemma DescribedCounts(st: Stores, m: Manifest, name: string, epoch: nat, generation: nat, log: seq<H.Entry>)
    requires Describes(st, m, name, epoch, generation, log) && log != [] && log[|log| - 1].last == |log|
    ensures m.catalog.Some? && m.catalog.value.first == 1
    ensures m.headSeq == m.catalog.value.last == m.catalog.value.count == m.index.entries == |log|
  {
    hide HP.Build, CP.Build, CP.Groups, HP.Stored, CP.Stored;
    assert Refs(log) != [];
    assert CP.Last(Refs(log)).last == log[|log| - 1].last;
  }

  /** Binding never reports a false integrity failure: on a good value it finds
      exactly the manifest of the latest append, whatever claims and releases
      came after it. */
  lemma PublicationIsLatest(st: Stores, name: string, v: RefValue)
    requires GoodValue(st, name, v)
    ensures var h := History(v.headCommit);
            if Log(h) == [] then Publication(st, name, v) == Ok(None)
            else && Latest(h).Some? && Latest(h).value.commit.Append?
                 && Publication(st, name, v) == Ok(Some(Latest(h).value.commit.manifest))
                 && Describes(st, Latest(h).value.commit.manifest, name, Latest(h).value.commit.header.epoch,
                              Latest(h).value.commit.header.generation, Log(h))
                 && Latest(h).value.commit.header.generation <= v.generation
  {
    hide Describes, Link, ValidManifest;
    var h := History(v.headCommit);
    LatestDescribes(st, name, h);
    BindsLatest(st, name, v);
    if Log(h) != [] {
      LogIsNumbered(st, name, h, |Log(h)| - 1);
      var d := Latest(h).value;
      DescribedIsValid(st, d.commit.header, d.commit.manifest, name, d.commit.header.generation, Log(h));
    }
  }

  lemma BindsLatest(st: Stores, name: string, v: RefValue)
    requires GoodValue(st, name, v)
    ensures BoundTarget(st, name, v) == Ok(Latest(History(v.headCommit)))
  {
    hide Describes;
    var h := History(v.headCommit);
    if h != [] {
      assert h[|h| - 1] == v.headCommit.value;
    }
  }

  lemma DescribedIsValid(st: Stores, hd: Header, m: Manifest, name: string, generation: nat, log: seq<H.Entry>)
    requires Describes(st, m, name, hd.epoch, generation, log) && log != [] && log[|log| - 1].last == |log|
    requires hd.resource == name
    ensures ValidManifest(name, hd, m)
  {
    DescribedCounts(st, m, name, hd.epoch, generation, log);
  }

  // ---- lookups read the log --------------------------------------------------------------------------------

  function ReceiptOf(e: H.Entry): Receipt {
    Receipt(e.payloadHash, e.first, e.last, e.generation)
  }

  /** What a lookup owes for a key and payload against a log. */
  ghost predicate Answers(r: Result<Option<Receipt>, Error>, log: seq<H.Entry>, key: H.Key, payload: seq<Byte>) {
    if exists e :: e in log && e.key == key then
      exists e :: e in log && e.key == key
                  && r == (if e.payloadHash == payload then Ok(Some(ReceiptOf(e))) else Err(KeyConflict(e.payloadHash)))
    else r == Ok(None)
  }

  lemma LookupReadsLog(st: Stores, name: string, v: RefValue, key: H.Key, payload: seq<Byte>)
    requires GoodValue(st, name, v)
    ensures Answers(LookupCommitted(st, name, v, key, payload), Log(History(v.headCommit)), key, payload)
  {
    hide GoodValue, Describes, Publication, Log, Latest, History, H.LookupSpec;
    var h := History(v.headCommit);
    PublicationIsLatest(st, name, v);
    if Log(h) != [] {
      var d := Latest(h).value;
      var m := d.commit.manifest;
      IndexReadsLog(st, m, name, d.commit.header.epoch, d.commit.header.generation, v.generation, Log(h), key);
      var found := H.LookupSpec(st.nodes, m.index, key, H.Head(v.generation, m.headSeq)).value;
      if found.Some? {
        assert found.value in Log(h) && found.value.key == key;
      } else {
        assert forall e :: e in Log(h) && e.key == key ==> found == Some(e);
      }
    }
  }

  lemma IndexReadsLog(st: Stores, m: Manifest, name: string, epoch: nat, generation: nat, later: nat,
                      log: seq<H.Entry>, key: H.Key)
    requires Describes(st, m, name, epoch, generation, log) && generation <= later
    ensures var r := H.LookupSpec(st.nodes, m.index, key, H.Head(later, m.headSeq));
            r.Ok? && forall e :: r.value == Some(e) <==> e in log && e.key == key
  {
    hide HP.Build, HP.Stored, CT.Represents, H.LookupSpec;
    HT.RepresentsUnderLaterHead(st.nodes, m.index, HT.SetOf(log), H.Head(generation, |log|), H.Head(later, |log|));
    HT.LookupExact(st.nodes, m.index, HT.SetOf(log), key, H.Head(later, |log|));
  }
}
