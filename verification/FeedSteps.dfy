/** Each way the feed's ref moves keeps what FeedInv says of its value. */
module FeedSteps {
  import opened Words
  import opened Wrappers
  import H = Hamt
  import HP = HamtProof
  import HT = HamtTheorems
  import C = Catalog
  import CP = CatalogProof
  import CT = CatalogTheorems
  import opened Heads
  import opened Feed
  import opened FeedInv

  predicate Fresh(log: seq<H.Entry>, path: H.Path) {
    forall e :: e in log ==> e.key.path != path
  }

  /** What a manifest holds before an append: the two trees of one log. */
  ghost predicate Holds(st: Stores, catalog: Option<C.Root>, index: H.Root, generation: nat, log: seq<H.Entry>) {
    && CT.Represents(st.cat, catalog, Refs(log))
    && HT.Represents(st.nodes, index, HT.SetOf(log), H.Head(generation, |log|))
    && |HT.SetOf(log)| == |log|
    && (forall k :: 0 <= k < |log| ==> log[k].first == log[k].last == k + 1)
  }

  lemma CapacityBounds(cat: set<C.Digest>, catalog: Option<C.Root>, refs: seq<C.ChunkRef>)
    requires CT.Represents(cat, catalog, refs)
    ensures |refs| <= CP.Size(C.MAX_HEIGHT) < U64_MAX
  {
    hide CP.Build, CP.Stored, CP.Contiguous;
    CT.Capacity();
    if refs != [] {
      CT.SizesGrow(catalog.value.height, C.MAX_HEIGHT);
    }
  }

  /** Appending the next one-event chunk to the catalog of a log. */
  lemma CatalogTakes(st: Stores, catalog: Option<C.Root>, log: seq<H.Entry>, e: H.Entry)
    requires CT.Represents(st.cat, catalog, Refs(log)) && e.first == e.last == |log| + 1
    requires forall k :: 0 <= k < |log| ==> log[k].first == log[k].last == k + 1
    ensures var w := C.Append(st.cat, catalog, RefOf(e));
            if |log| == CP.Size(C.MAX_HEIGHT) then w.result == Err(C.Rejected)
            else w.result.Ok? && CT.Represents(w.store, Some(w.result.value), Refs(log + [e]))
  {
    hide CT.Represents, CP.Build, CP.Stored, C.Append, CP.Size;
    var chunk := RefOf(e);
    CT.AppendRefines(st.cat, catalog, Refs(log), chunk);
    assert CT.Follows(Refs(log), chunk);
    assert Refs(log + [e]) == Refs(log) + [chunk];
  }

  /** Inserting an entry under a fresh key into the index of a log: it fails only
      on a path that is already taken. */
  lemma IndexTakes(st: Stores, index: H.Root, generation: nat, log: seq<H.Entry>, e: H.Entry)
    requires HT.Represents(st.nodes, index, HT.SetOf(log), H.Head(generation, |log|))
             && |HT.SetOf(log)| == |log| < U64_MAX
    requires e.first == e.last == |log| + 1 && generation < e.generation
    requires forall x :: x in log ==> x.key != e.key
    ensures var w := H.Insert(st.nodes, index, e, H.Head(e.generation, |log| + 1));
            if !Fresh(log, e.key.path) then w.result == Err(H.Rejected)
            else && w.result.Ok?
                 && HT.Represents(w.store, w.result.value, HT.SetOf(log + [e]), H.Head(e.generation, |log| + 1))
                 && |HT.SetOf(log + [e])| == |log| + 1
  {
    hide HP.Build, HP.Stored, H.Insert;
    var S, head := HT.SetOf(log), H.Head(e.generation, |log| + 1);
    HT.RepresentsUnderLaterHead(st.nodes, index, S, H.Head(generation, |log|), head);
    HT.InsertRefines(st.nodes, index, S, e, head);
    assert HT.SetOf(log + [e]) == S + {e};
    if !Fresh(log, e.key.path) {
      var x :| x in log && x.key.path == e.key.path;
      assert x in S;
    }
  }

  // ---- appends ---------------------------------------------------------------------------------

  ghost predicate Appended(st: Stores, name: string, v: RefValue, a: AppendPlan, p: Prepared) {
    var h, d := History(v.headCommit), Digest(p.commit);
    && GoodValue(st, name, p.next)
    && History(p.next.headCommit) == h + [d]
    && p.commit.Append? && p.commit.header.epoch == v.epoch
    && p.commit.refState.lease.Some? && p.commit.refState.lease.value.writer == a.instance
    && p.next.lease == v.lease && p.next.epoch == v.epoch
    && p.commit.manifest.admission.key == a.key && p.commit.manifest.admission.payloadHash == a.payload
    && p.receipt == ReceiptOf(p.commit.manifest.admission)
  }

  lemma PrepareOnKeeps(st: Stores, name: string, v: RefValue, a: AppendPlan, catalog: Option<C.Root>, index: H.Root,
                       generation: nat, now: int)
    requires GoodValue(st, name, v) && v.lease.Some? && v.lease.value.writer == a.instance && generation <= v.generation
    requires |a.payload| <= MAX_CHUNK_RAW_BYTES
    requires var log := Log(History(v.headCommit));
             Holds(st, catalog, index, generation, log) && forall x :: x in log ==> x.key != a.key
    ensures var log := Log(History(v.headCommit));
            var r := PrepareOn(st, v, a, catalog, index, |log|, now);
            && Grown(st, r.st)
            && (r.result.Err? ==> r.result.error == Rejected)
            && (r.result.Ok? <==> |log| < CP.Size(C.MAX_HEIGHT) && Fresh(log, a.key.path))
            && (r.result.Ok? ==> Appended(r.st, name, v, a, r.result.value))
  {
    hide CT.Represents, HT.Represents, CP.Size, H.Insert, C.Append, GoodChain, Log, HT.SetOf;
    var log := Log(History(v.headCommit));
    CapacityBounds(st.cat, catalog, Refs(log));
    assert |Refs(log)| == |log|;
    var n: U64 := |log| + 1;
    var e := H.Entry(a.key, a.payload, n, n, v.generation + 1);
    CatalogTakes(st, catalog, log, e);
    IndexTakes(st, index, generation, log, e);
    var r := PrepareOn(st, v, a, catalog, index, |log|, now);
    if r.result.Ok? {
      ChainGrows(st, r.st, name, History(v.headCommit));
      ChainTakes(r.st, name, v, r.result.value, e, now);
    }
  }

  /** The prepared commit links to the chain below it. */
  lemma ChainTakes(st: Stores, name: string, v: RefValue, p: Prepared, e: H.Entry, now: int)
    requires GoodChain(st, name, History(v.headCommit)) && GoodValueShape(name, v) && v.lease.Some?
    requires p.commit.Append? && p.commit.manifest.admission == e
    requires p.commit.header == Header(name, v.generation + 1, v.epoch, Stable(e.key), v.headCommit)
    requires p.commit.refState
             == v.(generation := v.generation + 1, updatedAt := now, headCommit := None, target := None)
    requires p.next == v.(generation := v.generation + 1, updatedAt := now, headCommit := Some(Digest(p.commit)),
                          target := Some(Digest(p.commit)))
    requires Digest(p.commit) in st.objects && ChunkOf(e) in st.chunks && |e.payloadHash| <= MAX_CHUNK_RAW_BYTES
    requires e.generation == v.generation + 1
    requires var log := Log(History(v.headCommit));
             && Fresh(log, e.key.path) && e.first == e.last == |log| + 1
             && Describes(st, p.commit.manifest, name, v.epoch, v.generation + 1, log + [e])
    ensures GoodValue(st, name, p.next) && History(p.next.headCommit) == History(v.headCommit) + [Digest(p.commit)]
  {
    hide Describes, GoodChain, Log;
    var h, d := History(v.headCommit), Digest(p.commit);
    TipIsHead(v.headCommit);
    assert Link(st, name, h, d);
    ChainSnoc(st, name, h, d);
    assert History(p.next.headCommit) == h + [d];
  }

  /** GoodValue without the chain. */
  ghost predicate GoodValueShape(name: string, v: RefValue) {
    var h := History(v.headCommit);
    && v.name == name && v.generation == |h| && v.epoch == EpochOf(h) && v.target == Latest(h)
    && (v.lease.Some? ==> Claimer(h) == Some(v.lease.value.writer))
  }

  lemma EmptyHolds(st: Stores, generation: nat)
    ensures var w := H.EmptyRoot(st.nodes);
            w.result.Ok? && Holds(st.(nodes := w.store), None, w.result.value, generation, [])
  {
    hide HP.Build, HP.Stored;
    HT.EmptyRepresents(st.nodes, H.Head(generation, 0));
    assert HT.SetOf([]) == {};
  }

  lemma NumberedLog(st: Stores, name: string, h: seq<Digest>)
    requires GoodChain(st, name, h)
    ensures forall k :: 0 <= k < |Log(h)| ==>
            Log(h)[k].first == Log(h)[k].last == k + 1 && ChunkOf(Log(h)[k]) in st.chunks
  {
    hide GoodChain, Log;
    forall k | 0 <= k < |Log(h)| ensures Log(h)[k].first == Log(h)[k].last == k + 1 && ChunkOf(Log(h)[k]) in st.chunks {
      LogIsNumbered(st, name, h, k);
    }
  }

  /** Preparing an append under a key the log does not hold, from any value the
      ref ever had: it fails only for the lease, for a full catalog, or for a key
      whose path a logged key already has; never for integrity. What it prepares
      extends the chain by one append. */
  lemma PrepareExact(st: Stores, name: string, v: RefValue, a: AppendPlan, now: int)
    requires GoodValue(st, name, v) && forall x :: x in Log(History(v.headCommit)) ==> x.key != a.key
    ensures var log := Log(History(v.headCommit));
            var r := Prepare(st, name, v, a, now);
            && Grown(st, r.st)
            && (r.result.Ok? <==> && LeaseLive(v, now) && v.lease.value.writer == a.instance && v.epoch == a.epoch
                                  && |a.payload| <= MAX_CHUNK_RAW_BYTES && |log| < CP.Size(C.MAX_HEIGHT)
                                     && Fresh(log, a.key.path))
            && (r.result.Err? ==> r.result.error == Rejected || r.result.error == LeaseHeld)
            && (r.result.Ok? ==> Appended(r.st, name, v, a, r.result.value))
  {
    hide PrepareOn, Appended, CP.Size, GoodChain, Log, Describes, Holds, Fresh;
    var h := History(v.headCommit);
    PublicationIsLatest(st, name, v);
    if LeaseLive(v, now) && v.lease.value.writer == a.instance && v.epoch == a.epoch
        && |a.payload| <= MAX_CHUNK_RAW_BYTES {
      if Log(h) == [] {
        EmptyHolds(st, 0);
        ValueGrows(st, st.(nodes := H.EmptyRoot(st.nodes).store), name, v);
        PrepareOnKeeps(st.(nodes := H.EmptyRoot(st.nodes).store), name, v, a, None, H.EmptyRoot(st.nodes).result.value,
                       0, now);
      } else {
        var d := Latest(h).value;
        DescribedHolds(st, d.commit.manifest, name, d.commit.header.epoch, d.commit.header.generation, h);
        PrepareOnKeeps(st, name, v, a, d.commit.manifest.catalog, d.commit.manifest.index, d.commit.header.generation,
                       now);
      }
    }
  }

  lemma DescribedHolds(st: Stores, m: Manifest, name: string, epoch: nat, generation: nat, h: seq<Digest>)
    requires GoodChain(st, name, h) && Describes(st, m, name, epoch, generation, Log(h))
    ensures Holds(st, m.catalog, m.index, generation, Log(h)) && m.headSeq == |Log(h)|
  {
    hide GoodChain, Log, CT.Represents, HT.Represents;
    NumberedLog(st, name, h);
  }

  // ---- claims, releases, renewals ----------------------------------------------------------------------

  /** A claim or release keeps the log and the target, and links to the chain. */
  lemma PlainKeeps(st: Stores, name: string, v: RefValue, op: nat, next: RefValue)
    requires GoodValue(st, name, v)
    requires next == v.(generation := v.generation + 1, epoch := next.epoch, lease := next.lease,
                        updatedAt := next.updatedAt)
    requires next.epoch == v.epoch + (if next.lease.Some? then 1 else 0)
    ensures var d := Digest(PlainCommit(v, op, next));
            var st' := st.(objects := st.objects + {d});
            && GoodValue(st', name, next.(headCommit := Some(d)))
            && History(Some(d)) == History(v.headCommit) + [d] && Log(History(Some(d))) == Log(History(v.headCommit))
  {
    hide GoodChain, Log;
    var h, d := History(v.headCommit), Digest(PlainCommit(v, op, next));
    var st' := st.(objects := st.objects + {d});
    ChainGrows(st, st', name, h);
    TipIsHead(v.headCommit);
    assert Link(st', name, h, d);
    ChainSnoc(st', name, h, d);
    assert History(Some(d)) == h + [d];
  }

  lemma RenewKeeps(st: Stores, name: string, v: RefValue, writer: string, until: int, at: int)
    requires GoodValue(st, name, v) && v.lease.Some? && v.lease.value.writer == writer
    ensures GoodValue(st, name, v.(lease := Some(Lease(writer, until)), updatedAt := at))
  {
    hide GoodChain;
  }
}
