/** The feed's promises over every run: agreement of its three structures,
    stable keys committed once, fenced writers, no false integrity failure. */
module FeedPromises {
  import opened Words
  import opened Wrappers
  import opened Heads
  import H = Hamt
  import HT = HamtTheorems
  import C = Catalog
  import CP = CatalogProof
  import CT = CatalogTheorems
  import opened Feed
  import opened FeedInv
  import opened FeedSteps
  import opened FeedTheorems

  // ---- agreement ------------------------------------------------------------------------

  /** The log that the head of a state has appended. */
  function LogOf(s: State, name: string): seq<H.Entry> {
    Log(Chain(s, name))
  }

  /** Index, catalog and counters of one manifest against one log. */
  ghost predicate Agrees(st: Stores, m: Manifest, log: seq<H.Entry>, generation: nat) {
    && m.catalog.Some?
    && m.headSeq == m.catalog.value.last == m.catalog.value.count == m.index.entries == |log|
    && (forall key, e ::
          H.LookupSpec(st.nodes, m.index, key, H.Head(generation, m.headSeq)) == Ok(Some(e))
          <==> e in log && e.key == key)
    && (forall q: nat :: 1 <= q <= |log| ==> Located(st, m, log, q))
  }

  /** Seeking a sequence reaches a leaf that holds exactly that frame's chunk. */
  ghost predicate Located(st: Stores, m: Manifest, log: seq<H.Entry>, q: nat)
    requires 1 <= q <= |log|
  {
    var r := C.SeekSpec(st.cat, m.catalog, q);
    r.Ok? && r.value.Some? && q <= U64_MAX && RefOf(log[q - 1]) in r.value.value
    && log[q - 1].first == log[q - 1].last == q && ChunkOf(log[q - 1]) in st.chunks
  }

  /** In every reachable state the bound manifest is that of the log the chain
      appended: head sequence, the catalog's last sequence and chunk count, and
      the index's entries are equal; the index maps a key to an entry exactly when
      that entry was appended; the catalog leads from sequence q to frame q. */
  lemma FeedAgreement(name: string, trace: seq<State>, labels: seq<Label>, k: nat)
    requires Behavior(name, trace, labels) && k < |trace|
    ensures var s, v := trace[k], HeadOf(trace[k], name).value;
            var log := LogOf(s, name);
            && (forall q :: 0 <= q < |log| ==> log[q].first == log[q].last == q + 1)
            && (if log == [] then Publication(s.st, name, v) == Ok(None)
                else Publication(s.st, name, v).Ok? && Publication(s.st, name, v).value.Some?
                     && Agrees(s.st, Publication(s.st, name, v).value.value, log, v.generation))
  {
    hide Behavior, Agrees, Publication, Describes;
    InvAlways(name, trace, labels, k);
    var s, v := trace[k], HeadOf(trace[k], name).value;
    var h := Chain(s, name);
    NumberedLog(s.st, name, h);
    PublicationIsLatest(s.st, name, v);
    if Log(h) != [] {
      var d := Latest(h).value;
      DescribedAgrees(s.st, d.commit.manifest, name, d.commit.header.epoch, d.commit.header.generation, v.generation,
                      Log(h));
    }
  }

  lemma DescribedAgrees(st: Stores, m: Manifest, name: string, epoch: nat, generation: nat, later: nat,
                        log: seq<H.Entry>)
    requires Describes(st, m, name, epoch, generation, log) && generation <= later && log != []
    requires forall q :: 0 <= q < |log| ==> log[q].first == log[q].last == q + 1 && ChunkOf(log[q]) in st.chunks
    ensures Agrees(st, m, log, later)
  {
    hide CT.Represents, HT.Represents, Located, H.LookupSpec;
    DescribedCounts(st, m, name, epoch, generation, log);
    forall key, e
      ensures H.LookupSpec(st.nodes, m.index, key, H.Head(later, m.headSeq)) == Ok(Some(e))
              <==> e in log && e.key == key
    {
      IndexReadsLog(st, m, name, epoch, generation, later, log, key);
    }
    forall q: nat | 1 <= q <= |log| ensures Located(st, m, log, q) {
      SeekLocates(st, m, log, q);
    }
  }

  lemma SeekLocates(st: Stores, m: Manifest, log: seq<H.Entry>, q: nat)
    requires CT.Represents(st.cat, m.catalog, Refs(log)) && 1 <= q <= |log|
    requires forall i :: 0 <= i < |log| ==> log[i].first == log[i].last == i + 1 && ChunkOf(log[i]) in st.chunks
    ensures Located(st, m, log, q)
  {
    hide CT.Represents, C.SeekSpec, CP.Size, ChunkOf;
    CapacityBounds(st.cat, m.catalog, Refs(log));
    NumberedRefs(log);
    CatalogLeads(st.cat, m.catalog, Refs(log), q);
    hide Refs, RefOf;
  }

  /** The leaf a seek reaches in a catalog of one-event refs holds that one. */
  lemma CatalogLeads(cat: set<C.Digest>, catalog: Option<C.Root>, refs: seq<C.ChunkRef>, q: nat)
    requires CT.Represents(cat, catalog, refs) && 1 <= q <= |refs|
    requires forall i :: 0 <= i < |refs| ==> refs[i].first == refs[i].last == i + 1
    ensures var r := C.SeekSpec(cat, catalog, q);
            r.Ok? && r.value.Some? && refs[q - 1] in r.value.value
  {
    hide CT.Represents, C.SeekSpec, CT.Slice;
    CT.SeekExact(cat, catalog, refs, q);
    assert CT.Covers(refs, q);
    SliceHolds(refs, C.SeekSpec(cat, catalog, q).value.value, q);
  }

  lemma NumberedRefs(log: seq<H.Entry>)
    requires forall i :: 0 <= i < |log| ==> log[i].first == log[i].last == i + 1
    ensures |Refs(log)| == |log|
    ensures forall i :: 0 <= i < |log| ==>
            Refs(log)[i] == RefOf(log[i]) && Refs(log)[i].first == Refs(log)[i].last == i + 1
  {
  }

  /** A covering slice of one-event refs holds the one of that sequence. */
  lemma SliceHolds(refs: seq<C.ChunkRef>, g: seq<C.ChunkRef>, q: nat)
    requires CT.Slice(refs, g) && g != [] && g[0].first <= q <= g[|g| - 1].last && 1 <= q <= |refs|
    requires forall i :: 0 <= i < |refs| ==> refs[i].first == refs[i].last == i + 1
    ensures refs[q - 1] in g
  {
    var i: nat :| CT.SliceAt(refs, g, i);
    assert g[0] == refs[i] && g[|g| - 1] == refs[i + |g| - 1];
    assert g[q - 1 - i] == refs[q - 1];
  }

  // ---- stable keys commit once --------------------------------------------------------------

  /** A key, and even a path, is committed at one sequence only. */
  lemma KeyOnce(name: string, trace: seq<State>, labels: seq<Label>, k: nat, i: nat, j: nat)
    requires Behavior(name, trace, labels) && k < |trace|
    requires i < |LogOf(trace[k], name)| && j < |LogOf(trace[k], name)|
    requires LogOf(trace[k], name)[i].key.path == LogOf(trace[k], name)[j].key.path
    ensures i == j
  {
    hide Behavior, GoodChain, Log;
    InvAlways(name, trace, labels, k);
    if i < j {
      LogIsNumbered(trace[k].st, name, Chain(trace[k], name), j);
    } else if j < i {
      LogIsNumbered(trace[k].st, name, Chain(trace[k], name), i);
    }
  }

  lemma StepAdvances(s: State, s': State, name: string, l: Label)
    requires Inv(s, name) && Next(name, s, s', l)
    ensures Chain(s, name) <= Chain(s', name)
    ensures forall x :: x in s.procs && (s.procs[x].pc.Done? || s.procs[x].pc.Conflict?) ==>
            x in s'.procs && s'.procs[x] == s.procs[x]
  {
    hide GoodValue, Log, CommitsPlain, Prepare, LookupCommitted, Checked;
    match l
    case Start(_, _, _, _) =>
    case Run(x, now) =>
      if s.procs[x].pc.Swapping? && s'.ref != s.ref {
        SwapAdvances(s, s', name, s.procs[x].pc.snap, s.procs[x].pc.prepared.next);
      }
    case Claim(op, writer, ttl, steal, now) =>
      PlainIsOk(s, s', name, op, ClaimNext(HeadOf(s, name).value, writer, ttl, steal, now));
      PlainProcs(s, s', name, op, ClaimNext(HeadOf(s, name).value, writer, ttl, steal, now));
      PlainStep(s, s', name, op, ClaimNext(HeadOf(s, name).value, writer, ttl, steal, now).value);
    case Release(op, owner, fence, now) =>
      PlainIsOk(s, s', name, op, ReleaseNext(HeadOf(s, name).value, owner, fence, now));
      PlainProcs(s, s', name, op, ReleaseNext(HeadOf(s, name).value, owner, fence, now));
      PlainStep(s, s', name, op, ReleaseNext(HeadOf(s, name).value, owner, fence, now).value);
    case Renew(writer, epoch, ttl, now, casNow) => RenewStep(s, s', name, writer, epoch, ttl, now, casNow);
    case Orphans =>
  }

  lemma PlainProcs(s: State, s': State, name: string, op: nat, next: Result<RefValue, Error>)
    requires CommitsPlain(name, s, s', op, next)
    ensures s'.procs == s.procs
  {
  }

  /** Commits are never lost or reordered, and an answered call stays answered. */
  lemma {:induction false} RunsAdvance(name: string, trace: seq<State>, labels: seq<Label>, j: nat, k: nat)
    requires Behavior(name, trace, labels) && j <= k < |trace|
    ensures Chain(trace[j], name) <= Chain(trace[k], name)
    ensures forall x :: x in trace[j].procs && (trace[j].procs[x].pc.Done? || trace[j].procs[x].pc.Conflict?)
                        ==> x in trace[k].procs && trace[k].procs[x] == trace[j].procs[x]
    decreases k
  {
    hide Inv, Next, History;
    if j < k {
      RunsAdvance(name, trace, labels, j, k - 1);
      InvAlways(name, trace, labels, k - 1);
      assert Next(name, trace[k - 1], trace[k], labels[k - 1]);
      StepAdvances(trace[k - 1], trace[k], name, labels[k - 1]);
    }
  }

  /** Whichever session, retry or lookup answered, and whenever: successful
      appends under one key were given the same bytes and return one receipt. */
  lemma ReceiptsAgree(name: string, trace: seq<State>, labels: seq<Label>, j: nat, k: nat, x: nat, y: nat)
    requires Behavior(name, trace, labels) && j <= k < |trace|
    requires x in trace[j].procs && trace[j].procs[x].pc.Done? && y in trace[k].procs && trace[k].procs[y].pc.Done?
    requires trace[j].procs[x].key == trace[k].procs[y].key
    ensures trace[j].procs[x].pc.receipt == trace[k].procs[y].pc.receipt
    ensures trace[j].procs[x].payload == trace[k].procs[y].payload == trace[k].procs[y].pc.receipt.payloadHash
  {
    hide Behavior, GoodValue, Log;
    RunsAdvance(name, trace, labels, j, k);
    InvAlways(name, trace, labels, k);
    var s := trace[k];
    var p, q := s.procs[x], s.procs[y];
    assert ProcOk(s, name, p) && ProcOk(s, name, q);
    var log := LogOf(s, name);
    var e :| e in log && e.key == p.key && e.payloadHash == p.payload && ReceiptOf(e) == p.pc.receipt;
    var f :| f in log && f.key == q.key && f.payloadHash == q.payload && ReceiptOf(f) == q.pc.receipt;
    var i, m :| 0 <= i < |log| && log[i] == e && 0 <= m < |log| && log[m] == f;
    KeyOnce(name, trace, labels, k, i, m);
  }

  /** Once a key is committed, any call under it that looks it up is answered: with
      the committed receipt for the same bytes, with a conflict naming the
      committed hash for others. Neither touches the ref. */
  lemma CommittedKeyAnswers(name: string, trace: seq<State>, labels: seq<Label>, k: nat, e: H.Entry, p: Proc, next: Pc)
    requires Behavior(name, trace, labels) && k < |trace| && e in LogOf(trace[k], name) && e.key == p.key
    ensures AfterLookup(trace[k].st, name, HeadOf(trace[k], name), p, next)
            == if e.payloadHash == p.payload then Done(ReceiptOf(e)) else Conflict(e.payloadHash)
  {
    hide Behavior, GoodValue, Log, LookupCommitted;
    InvAlways(name, trace, labels, k);
    var s := trace[k];
    LookupReadsLog(s.st, name, HeadOf(s, name).value, p.key, p.payload);
    var log := LogOf(s, name);
    var f :| f in log && f.key == p.key
             && LookupCommitted(s.st, name, HeadOf(s, name).value, p.key, p.payload)
                == if f.payloadHash == p.payload then Ok(Some(ReceiptOf(f))) else Err(KeyConflict(f.payloadHash));
    var i, m :| 0 <= i < |log| && log[i] == e && 0 <= m < |log| && log[m] == f;
    KeyOnce(name, trace, labels, k, i, m);
  }

  // ---- fencing ---------------------------------------------------------------------------------

  lemma {:induction false} EpochsRise(st: Stores, name: string, h: seq<Digest>, i: nat, j: nat)
    requires GoodChain(st, name, h) && i <= j < |h|
    ensures h[i].commit.header.epoch <= h[j].commit.header.epoch
    ensures i < j && IsClaim(h[j]) ==> h[i].commit.header.epoch < h[j].commit.header.epoch
    decreases |h|
  {
    hide Describes;
    var pre := h[..|h| - 1];
    if j < |h| - 1 {
      EpochsRise(st, name, pre, i, j);
    } else if i < j {
      EpochsRise(st, name, pre, i, j - 1);
      assert EpochOf(pre) == h[j - 1].commit.header.epoch;
    }
  }

  /** The latest claim made the current epoch. */
  lemma {:induction false} LatestClaim(st: Stores, name: string, h: seq<Digest>) returns (j: nat)
    requires GoodChain(st, name, h) && Claimer(h).Some?
    ensures j < |h| && IsClaim(h[j]) && h[j].commit.refState.lease.value.writer == Claimer(h).value
    ensures h[j].commit.header.epoch == EpochOf(h)
  {
    hide Describes;
    if IsClaim(h[|h| - 1]) {
      j := |h| - 1;
    } else {
      j := LatestClaim(st, name, h[..|h| - 1]);
    }
  }

  lemma {:induction false} PrefixGood(st: Stores, name: string, h: seq<Digest>, k: nat)
    requires GoodChain(st, name, h) && k < |h|
    ensures GoodChain(st, name, h[..k]) && Link(st, name, h[..k], h[k])
    decreases |h|
  {
    hide Link;
    if k < |h| - 1 {
      PrefixGood(st, name, h[..|h| - 1], k);
      assert h[..|h| - 1][..k] == h[..k];
    }
  }

  /** Every append was made under the lease of the one claim that created its
      epoch; commits never follow one of a larger epoch. */
  lemma AppendIsFenced(st: Stores, name: string, h: seq<Digest>, k: nat) returns (j: nat)
    requires GoodChain(st, name, h) && k < |h| && h[k].commit.Append?
    ensures j < k && IsClaim(h[j]) && h[j].commit.header.epoch == h[k].commit.header.epoch
    ensures h[k].commit.refState.lease.Some?
    ensures h[j].commit.refState.lease.value.writer == h[k].commit.refState.lease.value.writer
    ensures forall i :: 0 <= i < |h| && IsClaim(h[i]) && h[i].commit.header.epoch == h[k].commit.header.epoch ==> i == j
    ensures forall i :: 0 <= i < k ==> h[i].commit.header.epoch <= h[k].commit.header.epoch
  {
    hide Describes, GoodChain;
    PrefixGood(st, name, h, k);
    j := LatestClaim(st, name, h[..k]);
    forall i | 0 <= i < |h| && IsClaim(h[i]) && h[i].commit.header.epoch == h[k].commit.header.epoch ensures i == j {
      EpochsRise(st, name, h, if i < j then i else j, if i < j then j else i);
    }
    forall i | 0 <= i < k ensures h[i].commit.header.epoch <= h[k].commit.header.epoch {
      EpochsRise(st, name, h, i, k);
    }
  }

  /** Fencing over whole runs, with renewals and releases interleaved freely: in
      any reachable chain an append of some epoch carries the writer whose claim
      created that epoch. */
  lemma Fencing(name: string, trace: seq<State>, labels: seq<Label>, n: nat, k: nat) returns (j: nat)
    requires Behavior(name, trace, labels) && n < |trace|
    requires k < |Chain(trace[n], name)| && Chain(trace[n], name)[k].commit.Append?
    ensures var h := Chain(trace[n], name);
            && j < k && IsClaim(h[j]) && h[j].commit.header.epoch == h[k].commit.header.epoch
            && h[k].commit.refState.lease.Some?
            && h[j].commit.refState.lease.value.writer == h[k].commit.refState.lease.value.writer
            && (forall i :: 0 <= i < |h| && IsClaim(h[i]) && h[i].commit.header.epoch == h[k].commit.header.epoch ==>
                i == j)
            && (forall i :: 0 <= i < k ==> h[i].commit.header.epoch <= h[k].commit.header.epoch)
  {
    hide Behavior, GoodChain;
    InvAlways(name, trace, labels, n);
    j := AppendIsFenced(trace[n].st, name, Chain(trace[n], name), k);
  }

  /** A session's swap that changes the ref adds one append commit, made under the
      session's own lease, at its epoch, for its key and bytes; and the lease it
      leaves in the ref is the session's, at its epoch, and still runs. */
  lemma SwapIsOwn(name: string, trace: seq<State>, labels: seq<Label>, k: nat, x: nat, now: int)
    requires Behavior(name, trace, labels) && k < |labels| && labels[k] == Run(x, now)
    requires trace[k + 1].ref != trace[k].ref
    ensures var p, h := trace[k].procs[x], Chain(trace[k + 1], name);
            && p.pc.Swapping? && h != [] && h[..|h| - 1] == Chain(trace[k], name)
            && h[|h| - 1].commit.Append? && h[|h| - 1].commit.header.epoch == p.pc.epoch
            && h[|h| - 1].commit.refState.lease.Some? && h[|h| - 1].commit.refState.lease.value.writer == p.instance
            && h[|h| - 1].commit.manifest.admission.key == p.key
            && h[|h| - 1].commit.manifest.admission.payloadHash == p.payload
    ensures var p, v := trace[k].procs[x], HeadOf(trace[k + 1], name).value;
            && v.epoch == p.pc.epoch && v.lease.Some? && v.lease.value.writer == p.instance
            && v.lease.value.leaseUntil > now
  {
    hide GoodValue, Log, Prepare, LookupCommitted, Checked;
    InvAlways(name, trace, labels, k);
    var s, s' := trace[k], trace[k + 1];
    assert Next(name, s, s', labels[k]);
    var p := s.procs[x];
    assert ProcOk(s, name, p);
    SwapAdvances(s, s', name, p.pc.snap, p.pc.prepared.next);
  }

  /** A session that comes to its swap too late ends without touching the ref; in
      time, it lands exactly on the head it read, unless it stops first. */
  lemma SwapExactly(name: string, trace: seq<State>, labels: seq<Label>, k: nat, x: nat, now: int)
    requires Behavior(name, trace, labels) && k < |labels| && labels[k] == Run(x, now)
    requires x in trace[k].procs && trace[k].procs[x].pc.Swapping?
    ensures var p, p', next := trace[k].procs[x], trace[k + 1].procs[x], trace[k].procs[x].pc.prepared.next;
            var lease := next.lease;
            var inTime := lease.Some? && lease.value.writer == p.instance && next.epoch == p.pc.epoch
                          && lease.value.leaseUntil > now;
            && (!inTime ==> p'.pc == Failed && trace[k + 1].ref == trace[k].ref)
            && (inTime && p.pc.snap != HeadOf(trace[k], name) ==>
                  (p'.pc == Failed || p'.pc == Reading) && trace[k + 1].ref == trace[k].ref)
            && (inTime && p.pc.snap == HeadOf(trace[k], name) ==>
                  || (p'.pc == Failed && trace[k + 1].ref == trace[k].ref)
                  || ((p'.pc == Failed || p'.pc == Done(p.pc.prepared.receipt))
                      && HeadOf(trace[k + 1], name).value == next))
  {
    hide GoodValue, Log, Prepare, LookupCommitted, Checked;
    InvAlways(name, trace, labels, k);
    var s, s' := trace[k], trace[k + 1];
    assert Next(name, s, s', labels[k]);
    assert ProcOk(s, name, s.procs[x]);
  }

  /** What a claim or release that lands leaves in the ref: the prepared value,
      its commit at the tip, the log as it was. */
  lemma PlainLands(s: State, s': State, name: string, op: nat, next: RefValue)
    requires Inv(s, name) && CommitsPlain(name, s, s', op, Ok(next))
    requires var v := HeadOf(s, name).value;
             && next == v.(generation := v.generation + 1, epoch := next.epoch, lease := next.lease,
                           updatedAt := next.updatedAt)
             && next.epoch == v.epoch + (if next.lease.Some? then 1 else 0)
    ensures var d := Digest(PlainCommit(HeadOf(s, name).value, op, next));
            && HeadOf(s', name).value == next.(headCommit := Some(d))
            && Chain(s', name) == Chain(s, name) + [d] && LogOf(s', name) == LogOf(s, name)
  {
    hide GoodValue, Log;
    PlainKeeps(s.st, name, HeadOf(s, name).value, op, next);
  }

  /** A claim takes a lease that is free, run out, its own or stolen, for its ttl,
      one epoch up; it adds its commit and leaves target and log alone. */
  lemma ClaimTakes(name: string, trace: seq<State>, labels: seq<Label>, k: nat, op: nat, writer: string, ttl: int,
                   steal: bool, now: int)
    requires Behavior(name, trace, labels) && k < |labels| && labels[k] == Claim(op, writer, ttl, steal, now)
    ensures var v, v' := HeadOf(trace[k], name).value, HeadOf(trace[k + 1], name).value;
            var h, h' := Chain(trace[k], name), Chain(trace[k + 1], name);
            && (v.lease.Some? && v.lease.value.leaseUntil > now && v.lease.value.writer != writer ==> steal)
            && v'.epoch == v.epoch + 1 && v'.lease.Some?
            && v'.lease.value.writer == writer && v'.lease.value.leaseUntil == now + ttl && v'.updatedAt == now
            && |h'| == |h| + 1 && h <= h' && IsClaim(h'[|h|]) && h'[|h|].commit.header.identity == Generic(op)
            && v'.target == v.target && LogOf(trace[k + 1], name) == LogOf(trace[k], name)
  {
    hide GoodValue, Log, Inv;
    InvAlways(name, trace, labels, k);
    var s, s' := trace[k], trace[k + 1];
    assert Next(name, s, s', labels[k]);
    PlainLands(s, s', name, op, ClaimNext(HeadOf(s, name).value, writer, ttl, steal, now).value);
  }

  /** A release gives up the lease at its fence, its owner's if it names one; it
      keeps the epoch, adds its commit and leaves target and log alone. */
  lemma ReleaseGivesUp(name: string, trace: seq<State>, labels: seq<Label>, k: nat, op: nat, owner: Option<string>,
                       fence: nat, now: int)
    requires Behavior(name, trace, labels) && k < |labels| && labels[k] == Release(op, owner, fence, now)
    ensures var v, v' := HeadOf(trace[k], name).value, HeadOf(trace[k + 1], name).value;
            var h, h' := Chain(trace[k], name), Chain(trace[k + 1], name);
            && v.epoch == fence && (owner.Some? ==> v.lease.Some? && v.lease.value.writer == owner.value)
            && v'.epoch == v.epoch && v'.lease.None? && v'.updatedAt == now
            && |h'| == |h| + 1 && h <= h' && h'[|h|].commit.Plain? && !IsClaim(h'[|h|])
            && h'[|h|].commit.header.identity == Generic(op)
            && v'.target == v.target && LogOf(trace[k + 1], name) == LogOf(trace[k], name)
  {
    hide GoodValue, Log, Inv;
    InvAlways(name, trace, labels, k);
    var s, s' := trace[k], trace[k + 1];
    assert Next(name, s, s', labels[k]);
    PlainLands(s, s', name, op, ReleaseNext(HeadOf(s, name).value, owner, fence, now).value);
  }

  /** A renewal lengthens a lease of its own writer and epoch that still ran at
      both of its clock readings, and changes nothing else the ref says. */
  lemma RenewLengthens(name: string, trace: seq<State>, labels: seq<Label>, k: nat, writer: string, epoch: nat,
                       ttl: int, now: int, casNow: int)
    requires Behavior(name, trace, labels) && k < |labels| && labels[k] == Renew(writer, epoch, ttl, now, casNow)
    ensures var v, v' := HeadOf(trace[k], name).value, HeadOf(trace[k + 1], name).value;
            && v.epoch == epoch && v.lease.Some? && v.lease.value.writer == writer
            && v.lease.value.leaseUntil > now && v.lease.value.leaseUntil > casNow
            && v'.lease.Some? && v'.lease.value.writer == writer && v'.lease.value.leaseUntil == casNow + ttl
            && v' == v.(lease := v'.lease, updatedAt := casNow)
            && Chain(trace[k + 1], name) == Chain(trace[k], name)
  {
    assert Next(name, trace[k], trace[k + 1], labels[k]);
  }

  /** No counter of the ref leaves 64 bits. */
  lemma {:induction false} CountersFit(name: string, trace: seq<State>, labels: seq<Label>, k: nat)
    requires Behavior(name, trace, labels) && k < |trace|
    ensures HeadOf(trace[k], name).value.generation <= U64_MAX && HeadOf(trace[k], name).value.epoch <= U64_MAX
  {
    hide Inv, Next, GoodValue;
    if k > 0 {
      CountersFit(name, trace, labels, k - 1);
      InvAlways(name, trace, labels, k - 1);
      assert Next(name, trace[k - 1], trace[k], labels[k - 1]);
      StepFits(trace[k - 1], trace[k], name, labels[k - 1]);
    }
  }

  lemma StepFits(s: State, s': State, name: string, l: Label)
    requires Inv(s, name) && Next(name, s, s', l)
    requires HeadOf(s, name).value.generation <= U64_MAX && HeadOf(s, name).value.epoch <= U64_MAX
    ensures HeadOf(s', name).value.generation <= U64_MAX && HeadOf(s', name).value.epoch <= U64_MAX
  {
    hide GoodChain, Log, Prepare, LookupCommitted, Checked;
    match l
    case Run(x, now) =>
      if s'.ref != s.ref {
        var p := s.procs[x];
        assert ProcOk(s, name, p) && p.pc.Swapping?;
        assert p.pc.snap == HeadOf(s, name);
      }
    case _ =>
  }

  // ---- no false integrity failure -------------------------------------------------------------------

  /** Every ref state that claims, appends, releases and renewals reach binds and
      validates: the bound manifest is that of the latest append. */
  lemma NeverFalseIntegrity(name: string, trace: seq<State>, labels: seq<Label>, k: nat)
    requires Behavior(name, trace, labels) && k < |trace|
    ensures var s, v := trace[k], HeadOf(trace[k], name).value;
            && BoundTarget(s.st, name, v) == Ok(Latest(Chain(s, name)))
            && Publication(s.st, name, v).Ok?
            && (Latest(Chain(s, name)).Some? ==>
                  Publication(s.st, name, v).value.Some? && Latest(Chain(s, name)).value.commit.Append?
                  && Publication(s.st, name, v).value.value == Latest(Chain(s, name)).value.commit.manifest)
  {
    hide Behavior, GoodChain, Describes, Publication, BoundTarget;
    InvAlways(name, trace, labels, k);
    var s, v := trace[k], HeadOf(trace[k], name).value;
    BindsLatest(s.st, name, v);
    PublicationIsLatest(s.st, name, v);
    LatestDescribes(s.st, name, Chain(s, name));
  }

  /** A session about to prepare, on whatever snapshot it still holds, fails only
      for the lease, a full catalog or a taken path. */
  lemma PrepareNeverFalse(name: string, trace: seq<State>, labels: seq<Label>, k: nat, x: nat, now: int)
    requires Behavior(name, trace, labels) && k < |trace| && x in trace[k].procs && trace[k].procs[x].pc.Ready?
    ensures var s, p := trace[k], trace[k].procs[x];
            var v, log := p.pc.snap.value, Log(History(p.pc.snap.value.headCommit));
            var r := Prepare(s.st, name, v, AppendOf(p, p.pc.epoch), now).result;
            && (r.Err? ==> r.error == Rejected || r.error == LeaseHeld)
            && (r.Ok? <==> && LeaseLive(v, now) && v.lease.value.writer == p.instance && v.epoch == p.pc.epoch
                           && |p.payload| <= MAX_CHUNK_RAW_BYTES && |log| < CP.Size(C.MAX_HEIGHT)
                              && Fresh(log, p.key.path))
  {
    hide Behavior, GoodValue, Log, Prepare, Fresh, CP.Size;
    InvAlways(name, trace, labels, k);
    var s, p := trace[k], trace[k].procs[x];
    assert ProcOk(s, name, p);
    PrepareExact(s.st, name, p.pc.snap.value, AppendOf(p, p.pc.epoch), now);
  }

  /** What the caller is told, though, calls some refused appends integrity
      failures: exactly those made under a live lease that have no next
      generation, meet a full catalog or take a path that a logged key has. */
  lemma ReportedIntegrityExactly(name: string, trace: seq<State>, labels: seq<Label>, k: nat, x: nat, ioNow: int,
                                 now: int)
    requires Behavior(name, trace, labels) && k < |trace| && x in trace[k].procs && trace[k].procs[x].pc.Ready?
    ensures var s, p := trace[k], trace[k].procs[x];
            var v, log := p.pc.snap.value, Log(History(p.pc.snap.value.headCommit));
            var r := AppendRefusal(s.st, name, v, AppendOf(p, p.pc.epoch), ioNow, now);
            r.Some? && ReportedAsIntegrity(r.value)
            <==> LeaseLive(v, ioNow)
                 && (v.generation >= U64_MAX
                     || (LeaseLive(v, now) && (|log| >= CP.Size(C.MAX_HEIGHT) || !Fresh(log, p.key.path))))
  {
    hide Behavior, Inv;
    InvAlways(name, trace, labels, k);
    RefusalReported(trace[k], name, x, ioNow, now);
  }

  lemma RefusalReported(s: State, name: string, x: nat, ioNow: int, now: int)
    requires Inv(s, name) && x in s.procs && s.procs[x].pc.Ready?
    ensures var p := s.procs[x];
            var v, log := p.pc.snap.value, Log(History(p.pc.snap.value.headCommit));
            var r := AppendRefusal(s.st, name, v, AppendOf(p, p.pc.epoch), ioNow, now);
            r.Some? && ReportedAsIntegrity(r.value)
            <==> LeaseLive(v, ioNow)
                 && (v.generation >= U64_MAX
                     || (LeaseLive(v, now) && (|log| >= CP.Size(C.MAX_HEIGHT) || !Fresh(log, p.key.path))))
  {
    hide GoodValue, Log, Prepare, Fresh, CP.Size, ReportedAsIntegrity;
    var p := s.procs[x];
    assert ProcOk(s, name, p);
    PrepareExact(s.st, name, p.pc.snap.value, AppendOf(p, p.pc.epoch), now);
    LeaseErrors(s.st, name, p.pc.snap.value, AppendOf(p, p.pc.epoch), now);
  }

  /** Preparing answers "lease held" exactly for a lease that is not this writer's,
      not at its epoch or not live; no error about the lease is reported as an
      integrity failure, any other refusal is. */
  lemma LeaseErrors(st: Stores, name: string, v: RefValue, a: AppendPlan, now: int)
    ensures var r := Prepare(st, name, v, a, now).result;
            r == Err(LeaseHeld)
            <==> v.lease.Some? && !(v.lease.value.writer == a.instance && v.epoch == a.epoch && LeaseLive(v, now))
    ensures forall e :: ReportedAsIntegrity(e) || e == LeaseHeld || e == LeaseExpired || e == Fenced || e.KeyConflict?
    ensures ReportedAsIntegrity(Rejected) && !ReportedAsIntegrity(LeaseHeld) && !ReportedAsIntegrity(LeaseExpired)
  {
    hide ValidManifest, C.Append, H.Insert, H.EmptyRoot;
  }
}
