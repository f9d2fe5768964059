/** What the complete feed promises over whole runs. */
module FeedTheorems {
  import opened Bits
  import opened Words
  import opened Wrappers
  import H = Hamt
  import opened Heads
  import opened Feed
  import opened FeedInv
  import opened FeedSteps

  // ---- the invariant -------------------------------------------------------------------

  function Number(snap: Snapshot): nat {
    if snap.version.Some? then snap.version.value else 0
  }

  function Chain(s: State, name: string): seq<Digest> {
    History(HeadOf(s, name).value.headCommit)
  }

  ghost predicate SnapOk(s: State, name: string, snap: Snapshot) {
    && GoodValue(s.st, name, snap.value)
    && Number(snap) <= Number(HeadOf(s, name))
    && (Number(snap) == Number(HeadOf(s, name)) ==> snap == HeadOf(s, name))
    && History(snap.value.headCommit) <= Chain(s, name)
  }

  predicate Recorded(log: seq<H.Entry>, key: H.Key, payload: seq<Byte>, r: Receipt) {
    exists e :: e in log && e.key == key && e.payloadHash == payload && ReceiptOf(e) == r
  }

  /** A session that has not ended has a payload within the limits; once it is
      ready to prepare, its snapshot holds its own lease at its epoch; what it swaps
      in has a next generation. */
  predicate Admissible(p: Proc) {
    && (!Terminal(p.pc) ==> p.payload != [] && |p.payload| <= MAX_CHUNK_RAW_BYTES)
    && (p.pc.Ready? ==>
          && p.pc.snap.value.lease.Some? && p.pc.snap.value.lease.value.writer == p.instance
          && p.pc.snap.value.epoch == p.pc.epoch)
    && (p.pc.Swapping? ==> p.pc.snap.value.generation < U64_MAX)
  }

  ghost predicate ProcOk(s: State, name: string, p: Proc) {
    Admissible(p) &&
    match p.pc
    case Ready(snap, _) =>
      SnapOk(s, name, snap) && forall e :: e in Log(History(snap.value.headCommit)) ==> e.key != p.key
    case Swapping(snap, epoch, prepared) =>
      SnapOk(s, name, snap) && Appended(s.st, name, snap.value, AppendOf(p, epoch), prepared)
    case Done(r) => Recorded(Log(Chain(s, name)), p.key, p.payload, r)
    case Conflict(existing) =>
      existing != p.payload
      && exists e :: e in Log(Chain(s, name)) && e.key == p.key && e.payloadHash == existing
    case _ => true
  }

  ghost predicate Inv(s: State, name: string) {
    && (name in s.ref ==> s.ref[name].version >= 1)
    && GoodValue(s.st, name, HeadOf(s, name).value)
    && forall x :: x in s.procs ==> ProcOk(s, name, s.procs[x])
  }

  /** The shared part of a step: stores grow, and the ref keeps its value or
      takes a good one, under a new version, whose chain extends the old. */
  ghost predicate Advances(s: State, s': State, name: string) {
    && Grown(s.st, s'.st)
    && (name in s'.ref ==> s'.ref[name].version >= 1)
    && GoodValue(s'.st, name, HeadOf(s', name).value)
    && (HeadOf(s', name) == HeadOf(s, name) || Number(HeadOf(s', name)) > Number(HeadOf(s, name)))
    && Chain(s, name) <= Chain(s', name)
  }

  lemma AppendedStays(st: Stores, st': Stores, name: string, v: RefValue, a: AppendPlan, p: Prepared)
    requires Appended(st, name, v, a, p) && Grown(st, st')
    ensures Appended(st', name, v, a, p)
  {
    hide GoodValue;
    ValueGrows(st, st', name, p.next);
  }

  lemma ProcStays(s: State, s': State, name: string, p: Proc)
    requires ProcOk(s, name, p) && Advances(s, s', name)
    ensures ProcOk(s', name, p)
  {
    hide GoodValue, Log, Appended;
    LogGrows(Chain(s, name), Chain(s', name));
    match p.pc
    case Ready(snap, _) => ValueGrows(s.st, s'.st, name, snap.value);
    case Swapping(snap, epoch, prepared) =>
      ValueGrows(s.st, s'.st, name, snap.value);
      AppendedStays(s.st, s'.st, name, snap.value, AppendOf(p, epoch), prepared);
    case _ =>
  }

  lemma Assemble(s: State, s': State, name: string, x: nat)
    requires Inv(s, name) && Advances(s, s', name)
    requires x in s'.procs ==> ProcOk(s', name, s'.procs[x])
    requires forall y :: y in s'.procs && y != x ==> y in s.procs && s'.procs[y] == s.procs[y]
    ensures Inv(s', name)
  {
    hide GoodValue, ProcOk;
    forall y | y in s'.procs && y != x ensures ProcOk(s', name, s'.procs[y]) {
      ProcStays(s, s', name, s.procs[y]);
    }
  }

  lemma Environment(s: State, s': State, name: string)
    requires Inv(s, name) && Advances(s, s', name) && s'.procs == s.procs
    ensures Inv(s', name)
  {
    hide GoodValue, ProcOk;
    forall y | y in s'.procs ensures ProcOk(s', name, s'.procs[y]) {
      ProcStays(s, s', name, s.procs[y]);
    }
  }

  // ---- steps --------------------------------------------------------------------------------

  lemma StandsStill(s: State, s': State, name: string)
    requires Inv(s, name) && Grown(s.st, s'.st) && s'.ref == s.ref
    ensures Advances(s, s', name)
  {
    hide GoodValue;
    ValueGrows(s.st, s'.st, name, HeadOf(s, name).value);
  }

  lemma HeadIsSnapOk(s: State, name: string)
    requires Inv(s, name)
    ensures SnapOk(s, name, HeadOf(s, name))
  {
  }

  /** A lookup leaves its caller with a receipt or a conflict of the log it read,
      or free to go on because the key is not there; it never fails. */
  lemma LookupLeaves(s: State, name: string, p: Proc, next: Pc)
    requires Inv(s, name)
    ensures var pc' := AfterLookup(s.st, name, HeadOf(s, name), p, next);
            && (pc'.Failed? ==> next.Failed?)
            && (pc' == next || ProcOk(s, name, p.(pc := pc')))
            && (pc' == next && !next.Done? && !next.Conflict?
                ==> forall e :: e in Log(Chain(s, name)) ==> e.key != p.key)
  {
    hide GoodValue, Log, LookupCommitted;
    LookupReadsLog(s.st, name, HeadOf(s, name).value, p.key, p.payload);
  }

  lemma SwapAdvances(s: State, s': State, name: string, snap: Snapshot, value: RefValue)
    requires Inv(s, name) && SnapOk(s, name, snap) && s'.st == s.st && SwapRef(s, s', name, snap.version, value)
    requires GoodValue(s.st, name, value) && History(snap.value.headCommit) <= History(value.headCommit)
    ensures Advances(s, s', name) && snap == HeadOf(s, name) && HeadOf(s', name).value == value
  {
    hide GoodValue;
  }

  lemma SwapStep(s: State, s': State, name: string, x: nat, p: Proc, pc': Pc)
    requires Inv(s, name) && x in s.procs && s.procs[x] == p && p.pc.Swapping? && s'.st == s.st
    requires SwapRef(s, s', name, p.pc.snap.version, p.pc.prepared.next)
    requires s'.procs == s.procs[x := p.(pc := pc')] && (pc' == Done(p.pc.prepared.receipt) || pc' == Failed)
    ensures Inv(s', name)
  {
    hide GoodValue, Log;
    SwapAdvances(s, s', name, p.pc.snap, p.pc.prepared.next);
    var h, d := Chain(s, name), Digest(p.pc.prepared.commit);
    SnocLog(h, d);
    assert Chain(s', name) == h + [d];
    assert p.pc.prepared.commit.manifest.admission in Log(h + [d]);
    Assemble(s, s', name, x);
  }

  lemma SnocLog(h: seq<Digest>, d: Digest)
    requires d.commit.Append?
    ensures Log(h + [d]) == Log(h) + [d.commit.manifest.admission]
  {
    assert (h + [d])[..|h|] == h;
  }

  lemma ReadyStep(s: State, s': State, name: string, x: nat, now: int)
    requires Inv(s, name) && x in s.procs && s.procs[x].pc.Ready? && x in s'.procs
    requires s'.procs == s.procs[x := s.procs[x].(pc := s'.procs[x].pc)]
    requires Move(name, s, s.procs[x], s', s'.procs[x].pc, now)
    ensures Inv(s', name)
  {
    assert ProcOk(s, name, s.procs[x]);
    hide Inv, ProcOk, Move;
    ReadyLeaves(s, s', name, s.procs[x], s'.procs[x].pc, now);
    StandsStill(s, s', name);
    Assemble(s, s', name, x);
  }

  lemma SnapGrows(s: State, s': State, name: string, snap: Snapshot)
    requires SnapOk(s, name, snap) && Grown(s.st, s'.st) && s'.ref == s.ref
    ensures SnapOk(s', name, snap)
  {
    hide GoodValue;
    ValueGrows(s.st, s'.st, name, snap.value);
  }

  /** Preparing leaves its session failed or with an append to swap in. */
  lemma ReadyLeaves(s: State, s': State, name: string, p: Proc, pc': Pc, now: int)
    requires ProcOk(s, name, p) && p.pc.Ready? && Move(name, s, p, s', pc', now)
    ensures Grown(s.st, s'.st) && s'.ref == s.ref && ProcOk(s', name, p.(pc := pc'))
  {
    hide GoodValue, Log, Appended, Prepare, Fresh, Move;
    ReadyMoves(s, s', name, p, pc', now);
    PrepareExact(s.st, name, p.pc.snap.value, AppendOf(p, p.pc.epoch), now);
    hide Grown, SnapOk;
    if pc'.Swapping? {
      SnapGrows(s, s', name, p.pc.snap);
    }
  }

  /** What a session that prepares does: it fails, or it holds what it prepared. */
  lemma ReadyMoves(s: State, s': State, name: string, p: Proc, pc': Pc, now: int)
    requires p.pc.Ready? && Move(name, s, p, s', pc', now)
    ensures var a := Prepare(s.st, name, p.pc.snap.value, AppendOf(p, p.pc.epoch), now);
            && s'.ref == s.ref && (s'.st == s.st || s'.st == a.st)
            && (pc' == Failed
                || (a.result.Ok? && s'.st == a.st && pc' == Swapping(p.pc.snap, p.pc.epoch, a.result.value)
                    && p.pc.snap.value.generation < U64_MAX))
  {
    hide Prepare;
  }

  lemma LookupStep(s: State, s': State, name: string, x: nat, now: int)
    requires Inv(s, name) && x in s.procs && (s.procs[x].pc.Reading? || s.procs[x].pc.Acquiring?) && x in s'.procs
    requires s'.procs == s.procs[x := s.procs[x].(pc := s'.procs[x].pc)]
    requires Move(name, s, s.procs[x], s', s'.procs[x].pc, now)
    ensures Inv(s', name)
  {
    hide GoodValue, Log, LookupCommitted;
    var p, snap := s.procs[x], HeadOf(s, name);
    StandsStill(s, s', name);
    if p.pc.Reading? {
      LookupLeaves(s, name, p, Acquiring);
    } else if s'.procs[x].pc != Failed {
      var epoch: nat :| Checked(name, s, p, s'.procs[x].pc, now, epoch);
      LookupLeaves(s, name, p, Ready(snap, epoch));
    }
    SameHead(s, s', name, s'.procs[x]);
    Assemble(s, s', name, x);
  }

  lemma SameHead(s: State, s': State, name: string, p: Proc)
    requires s'.st == s.st && s'.ref == s.ref
    ensures ProcOk(s, name, p) <==> ProcOk(s', name, p)
  {
    hide GoodValue, Log, Appended;
  }

  lemma RunStep(s: State, s': State, name: string, x: nat, now: int)
    requires Inv(s, name) && Runs(name, s, s', x, now)
    ensures Inv(s', name)
  {
    hide GoodValue, Log, Appended, LookupCommitted, Prepare, Checked;
    var p, pc' := s.procs[x], s'.procs[x].pc;
    if s'.st == s.st && s'.ref == s.ref && (pc' == Failed || pc' == Reading) {
      StandsStill(s, s', name);
      Assemble(s, s', name, x);
    } else if p.pc.Ready? {
      ReadyStep(s, s', name, x, now);
    } else if p.pc.Swapping? {
      SwapStep(s, s', name, x, p, pc');
    } else {
      LookupStep(s, s', name, x, now);
    }
  }

  lemma PlainStep(s: State, s': State, name: string, op: nat, next: RefValue)
    requires Inv(s, name) && CommitsPlain(name, s, s', op, Ok(next))
    requires var v := HeadOf(s, name).value;
             && next == v.(generation := v.generation + 1, epoch := next.epoch, lease := next.lease,
                           updatedAt := next.updatedAt)
             && next.epoch == v.epoch + (if next.lease.Some? then 1 else 0)
    ensures Inv(s', name) && Advances(s, s', name)
  {
    hide GoodValue, Log;
    var v := HeadOf(s, name).value;
    PlainKeeps(s.st, name, v, op, next);
    var d := Digest(PlainCommit(v, op, next));
    var mid := s.(st := s.st.(objects := s.st.objects + {d}));
    StandsStill(s, mid, name);
    Environment(s, mid, name);
    HeadIsSnapOk(mid, name);
    SwapAdvances(mid, s', name, HeadOf(mid, name), next.(headCommit := Some(d)));
    Environment(mid, s', name);
  }

  lemma RenewStep(s: State, s': State, name: string, writer: string, epoch: nat, ttl: int, now: int, casNow: int)
    requires Inv(s, name) && Next(name, s, s', Renew(writer, epoch, ttl, now, casNow))
    ensures Inv(s', name) && Advances(s, s', name)
  {
    hide GoodValue, Log;
    var head := HeadOf(s, name);
    HeadIsSnapOk(s, name);
    RenewKeeps(s.st, name, head.value, writer, casNow + ttl, casNow);
    SwapAdvances(s, s', name, head, head.value.(lease := Some(Lease(writer, casNow + ttl)), updatedAt := casNow));
    Environment(s, s', name);
  }

  lemma InvNext(s: State, s': State, name: string, l: Label)
    requires Inv(s, name) && Next(name, s, s', l)
    ensures Inv(s', name)
  {
    hide GoodValue, Log, ProcOk, CommitsPlain;
    match l
    case Start(x, _, _, _) =>
      StandsStill(s, s', name);
      StartOk(s', name, s'.procs[x]);
      Assemble(s, s', name, x);
    case Run(x, now) => RunStep(s, s', name, x, now);
    case Claim(op, writer, ttl, steal, now) =>
      PlainIsOk(s, s', name, op, ClaimNext(HeadOf(s, name).value, writer, ttl, steal, now));
      PlainStep(s, s', name, op, ClaimNext(HeadOf(s, name).value, writer, ttl, steal, now).value);
    case Release(op, owner, fence, now) =>
      PlainIsOk(s, s', name, op, ReleaseNext(HeadOf(s, name).value, owner, fence, now));
      PlainStep(s, s', name, op, ReleaseNext(HeadOf(s, name).value, owner, fence, now).value);
    case Renew(writer, epoch, ttl, now, casNow) => RenewStep(s, s', name, writer, epoch, ttl, now, casNow);
    case Orphans =>
      StandsStill(s, s', name);
      Environment(s, s', name);
  }

  lemma StartOk(s: State, name: string, p: Proc)
    requires p.pc.Failed? || (p.pc.Reading? && p.payload != [] && |p.payload| <= MAX_CHUNK_RAW_BYTES)
    ensures ProcOk(s, name, p)
  {
  }

  lemma PlainIsOk(s: State, s': State, name: string, op: nat, next: Result<RefValue, Error>)
    requires CommitsPlain(name, s, s', op, next)
    ensures next.Ok?
  {
  }

  lemma {:induction false} InvAlways(name: string, trace: seq<State>, labels: seq<Label>, k: nat)
    requires Behavior(name, trace, labels) && k < |trace|
    ensures Inv(trace[k], name)
  {
    hide Next, GoodValue;
    if k == 0 {
      InitOk(trace[0], name);
    } else {
      InvAlways(name, trace, labels, k - 1);
      InvNext(trace[k - 1], trace[k], name, labels[k - 1]);
    }
  }

  lemma InitOk(s: State, name: string)
    requires Init(s)
    ensures Inv(s, name)
  {
    assert History(None) == [];
  }
}
