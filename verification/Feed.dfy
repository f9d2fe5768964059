/** The complete feed: stable-key appends, claims, releases and renewals of one
    log ref, as a step relation. A commit of the chain is either an append, whose
    object is the log manifest, or a plain commit of a claim or a release. */
module Feed {
  import opened Bits
  import opened Words
  import opened Wrappers
  import opened Backend
  import opened Heads
  import H = Hamt
  import C = Catalog

  type Identity = IdentityOf<H.Key>

  type RefValue = RefState<Digest>

  datatype Header = Header(resource: string, generation: nat, epoch: nat, identity: Identity, parent: Option<Digest>)

  datatype Manifest = Manifest(
    log: string,
    epoch: nat,
    headSeq: nat,
    trimBefore: nat,
    catalog: Option<C.Root>,
    index: H.Root,
    admission: H.Entry)

  /** A commit and the durable copy of the ref value it made. */
  datatype Commit =
    | Append(header: Header, refState: RefValue, manifest: Manifest)
    | Plain(header: Header, refState: RefValue)

  datatype Digest = Digest(commit: Commit)

  /** Everything create-only: commits, index nodes, catalog nodes, chunks. */
  datatype Stores = Stores(objects: set<Digest>, nodes: set<H.Digest>, cat: set<C.Digest>, chunks: set<seq<C.Frame>>)

  type Snapshot = SnapshotOf<Digest>

  datatype Receipt = Receipt(payloadHash: seq<Byte>, first: nat, last: nat, generation: nat)

  datatype Error =
    | Integrity
    | Rejected
    | RecoveryFailed
    | LeaseHeld
    | LeaseExpired
    | Fenced
    | KeyConflict(existing: seq<Byte>)

  const MAX_CHUNK_RAW_BYTES: nat := 512 * 1024

  predicate LeaseLive(v: RefValue, now: int) {
    v.lease.Some? && v.lease.value.leaseUntil > now
  }

  /** enforce_live_lease, just before the swap: the value to be swapped in still
      holds this writer's lease, at this epoch, and it has not run out. */
  predicate EnforceLiveLease(next: RefValue, writer: string, epoch: nat, now: int) {
    LeaseLive(next, now) && next.lease.value.writer == writer && next.epoch == epoch
  }

  predicate Unpublished(v: RefValue) {
    v.generation == 0 && v.headCommit.None? && v.target.None?
  }

  // ---- binding the target ------------------------------------------------------------

  function BindPublishedTarget(name: string, v: RefValue, d: Digest): Result<Option<Digest>, Error> {
    var h := d.commit.header;
    if h.resource != name || v.name != name || h.generation != v.generation || h.epoch > v.epoch then Err(Integrity)
    else
      var persisted := if d.commit.Append? then Some(d) else d.commit.refState.target;
      if v.target == persisted then Ok(persisted) else Err(Integrity)
  }

  function BoundTarget(st: Stores, name: string, v: RefValue): Result<Option<Digest>, Error> {
    if Unpublished(v) then Ok(None)
    else if v.headCommit.None? || v.headCommit.value !in st.objects then Err(Integrity)
    else BindPublishedTarget(name, v, v.headCommit.value)
  }

  /** validate_complete_manifest */
  predicate ValidManifest(name: string, header: Header, m: Manifest) {
    && header.resource == name && m.log == name
    && header.epoch == m.epoch
    && m.trimBefore <= m.headSeq
    && (match m.catalog
        case None => m.headSeq == 0
        case Some(root) =>
          && m.headSeq != 0
          && 1 <= root.first <= root.last && root.count != 0
          && root.first == (if m.trimBefore == 0 then 1 else m.trimBefore + 1)
          && root.last == m.headSeq
          && root.count <= root.last - root.first + 1)
    && m.index.entries <= m.headSeq
    && (m.headSeq == 0 <==> m.index.entries == 0)
  }

  /** validated_publication: the manifest the ref's target names, if any. */
  function Publication(st: Stores, name: string, v: RefValue): Result<Option<Manifest>, Error> {
    match BoundTarget(st, name, v)
    case Err(e) => Err(e)
    case Ok(None) => Ok(None)
    case Ok(Some(d)) =>
      if d !in st.objects || d.commit.Plain? || !ValidManifest(name, d.commit.header, d.commit.manifest)
      then Err(Integrity)
      else Ok(Some(d.commit.manifest))
  }

  // ---- lookup ---------------------------------------------------------------------------

  function LookupCommitted(st: Stores, name: string, v: RefValue, key: H.Key,
                           payload: seq<Byte>)
    : Result<Option<Receipt>, Error>
  {
    match Publication(st, name, v)
    case Err(e) => Err(e)
    case Ok(None) => Ok(None)
    case Ok(Some(m)) =>
      match H.LookupSpec(st.nodes, m.index, key, H.Head(v.generation, m.headSeq))
      case Err(_) => Err(Integrity)
      case Ok(None) => Ok(None)
      case Ok(Some(e)) =>
        if e.payloadHash == payload then Ok(Some(Receipt(payload, e.first, e.last, e.generation)))
        else Err(KeyConflict(e.payloadHash))
  }

  // ---- preparing an append ------------------------------------------------------------------

  datatype AppendPlan = AppendPlan(instance: string, epoch: nat, key: H.Key, payload: seq<Byte>)

  datatype Prepared = Prepared(next: RefValue, commit: Commit, receipt: Receipt)

  datatype Attempt = Attempt(st: Stores, result: Result<Prepared, Error>)

  function IndexError(e: H.Error): Error {
    if e.Integrity? then Integrity else if e.Rejected? then Rejected else RecoveryFailed
  }

  function CatalogError(e: C.Error): Error {
    if e.Integrity? then Integrity else Rejected
  }

  /** CompleteAppendPlan::prepare on a snapshot, with the uploads it makes. */
  function Prepare(st: Stores, name: string, v: RefValue, a: AppendPlan, now: int): Attempt {
    if v.lease.None? then Attempt(st, Err(Rejected))
    else if v.lease.value.writer != a.instance || v.epoch != a.epoch || !LeaseLive(v, now)
    then Attempt(st, Err(LeaseHeld))
    else if |a.payload| > MAX_CHUNK_RAW_BYTES then Attempt(st, Err(Rejected))
    else
      match Publication(st, name, v)
      case Err(e) => Attempt(st, Err(e))
      case Ok(None) =>
        var empty := H.EmptyRoot(st.nodes);
        PrepareOn(st.(nodes := empty.store), v, a, None, empty.result.value, 0, now)
      case Ok(Some(m)) => PrepareOn(st, v, a, m.catalog, m.index, m.headSeq, now)
  }

  function PrepareOn(st: Stores, v: RefValue, a: AppendPlan, catalog: Option<C.Root>, index: H.Root, headSeq: nat,
                     now: int)
    : Attempt
  {
    if headSeq >= U64_MAX then Attempt(st, Err(Integrity))
    else
      var n: U64 := headSeq + 1;
      var generation := v.generation + 1;
      var chunk := [C.Frame(n, a.payload)];
      var c := C.Append(st.cat, catalog, C.ChunkRef(chunk, n, n, 1, |a.payload|));
      var entry := H.Entry(a.key, a.payload, n, n, generation);
      var i := H.Insert(st.nodes, index, entry, H.Head(generation, n));
      match c.result
      case Err(e) => Attempt(st.(cat := c.store), Err(CatalogError(e)))
      case Ok(grown) =>
        match i.result
        case Err(e) => Attempt(st.(cat := c.store, nodes := i.store), Err(IndexError(e)))
        case Ok(indexed) =>
          var header := Header(v.name, generation, v.epoch, Stable(a.key), v.headCommit);
          var next := v.(generation := generation, updatedAt := now);
          var m := Manifest(v.name, v.epoch, n, 0, Some(grown), indexed, entry);
          var commit := Append(header, next.(headCommit := None, target := None), m);
          Attempt(Stores(st.objects + {Digest(commit)}, i.store, c.store, st.chunks + {chunk}),
                  Ok(Prepared(next.(headCommit := Some(Digest(commit)), target := Some(Digest(commit))), commit,
                              Receipt(a.payload, n, n, generation))))
  }

  /** Why commit_at_snapshot refuses an append before it uploads anything: it asks
      for a live lease, then for a next generation, and then prepares. */
  function AppendRefusal(st: Stores, name: string, v: RefValue, a: AppendPlan, ioNow: int, now: int): Option<Error> {
    if !LeaseLive(v, ioNow) then Some(LeaseExpired)
    else if v.generation >= U64_MAX then Some(Rejected)
    else
      match Prepare(st, name, v, a, now).result
      case Err(e) => Some(e)
      case Ok(_) => None
  }

  /** cas_from_anyhow: the refusals that a session reports as a failed integrity
      check. */
  predicate ReportedAsIntegrity(e: Error) {
    e.Integrity? || e.Rejected? || e.RecoveryFailed?
  }

  // ---- claims, releases, renewals ---------------------------------------------------------------

  /** The commit of a claim or release, and the ref value it swaps in. */
  function PlainCommit(v: RefValue, op: nat, next: RefValue): Commit {
    Plain(Header(v.name, next.generation, next.epoch, Generic(op), v.headCommit), next.(headCommit := None))
  }

  function ClaimNext(v: RefValue, writer: string, ttl: int, steal: bool, now: int): (r: Result<RefValue, Error>)
    ensures r == Err(LeaseHeld)
            <==> v.lease.Some? && v.lease.value.leaseUntil > now && v.lease.value.writer != writer && !steal
    ensures r == Err(Rejected) <==> r != Err(LeaseHeld) && (v.generation >= U64_MAX || v.epoch >= U64_MAX)
    ensures r.Err? ==> r.error == LeaseHeld || r.error == Rejected
  {
    if LeaseLive(v, now) && !steal && v.lease.value.writer != writer then Err(LeaseHeld)
    else if v.generation >= U64_MAX || v.epoch >= U64_MAX then Err(Rejected)
    else Ok(v.(generation := v.generation + 1, epoch := v.epoch + 1, lease := Some(Lease(writer, now + ttl)),
               updatedAt := now))
  }

  function ReleaseNext(v: RefValue, writer: Option<string>, fence: nat, now: int): (r: Result<RefValue, Error>)
    ensures r == Err(Fenced) <==> v.epoch != fence
    ensures r == Err(Rejected)
            <==> v.epoch == fence
                 && (v.generation >= U64_MAX
                     || (writer.Some? && !(v.lease.Some? && v.lease.value.writer == writer.value)))
    ensures r.Err? ==> r.error == Fenced || r.error == Rejected
  {
    if v.epoch != fence then Err(Fenced)
    else if writer.Some? && (v.lease.None? || v.lease.value.writer != writer.value) then Err(Rejected)
    else if v.generation >= U64_MAX then Err(Rejected)
    else Ok(v.(generation := v.generation + 1, lease := None, updatedAt := now))
  }

  function RenewNext(v: RefValue, writer: string, epoch: nat, ttl: int, now: int,
                     casNow: int)
    : (r: Result<RefValue, Error>)
    ensures r.Ok? <==> && v.epoch == epoch && v.lease.Some? && v.lease.value.writer == writer
                       && v.lease.value.leaseUntil > now && v.lease.value.leaseUntil > casNow
    ensures r == Err(LeaseExpired)
            <==> v.epoch == epoch && v.lease.Some? && v.lease.value.writer == writer
                 && !(v.lease.value.leaseUntil > now && v.lease.value.leaseUntil > casNow)
    ensures r == Err(Fenced) <==> v.epoch != epoch
    ensures r == Err(Rejected) <==> v.epoch == epoch && v.lease.None?
    ensures r == Err(LeaseHeld) <==> v.epoch == epoch && v.lease.Some? && v.lease.value.writer != writer
  {
    if v.epoch != epoch then Err(Fenced)
    else if v.lease.None? then Err(Rejected)
    else if v.lease.value.writer != writer then Err(LeaseHeld)
    else if !LeaseLive(v, now) || !LeaseLive(v, casNow) then Err(LeaseExpired)
    else Ok(v.(lease := Some(Lease(writer, casNow + ttl)), updatedAt := casNow))
  }

  // ---- the system --------------------------------------------------------------------------------------

  datatype Pc =
    | Reading
    | Acquiring
    | Ready(snap: Snapshot, epoch: nat)
    | Swapping(snap: Snapshot, epoch: nat, prepared: Prepared)
    | Done(receipt: Receipt)
    | Conflict(existing: seq<Byte>)
    | Failed

  datatype Proc = Proc(instance: string, key: H.Key, payload: seq<Byte>, pc: Pc)

  datatype State = State(st: Stores, ref: map<string, Cell<RefValue>>, procs: map<nat, Proc>)

  function HeadOf(s: State, name: string): Snapshot {
    HeadIn(s.ref, name)
  }

  function AppendOf(p: Proc, epoch: nat): AppendPlan {
    AppendPlan(p.instance, epoch, p.key, p.payload)
  }

  /** A lookup against a snapshot answers, conflicts, fails, or lets the caller go on. */
  function AfterLookup(st: Stores, name: string, snap: Snapshot, p: Proc, next: Pc): Pc {
    match LookupCommitted(st, name, snap.value, p.key, p.payload)
    case Ok(Some(r)) => Done(r)
    case Ok(None) => next
    case Err(KeyConflict(existing)) => Conflict(existing)
    case Err(_) => Failed
  }

  predicate SwapRef(s: State, s': State, name: string, expected: Option<nat>, value: RefValue) {
    var r := Put(s.ref, name, expected, value);
    r.Ok? && s'.ref == r.value
  }

  /** One step of append_stable. `acquire` may hand back any epoch: the checks
      after it do not trust it. A clock reading is any number. */
  ghost predicate Move(name: string, s: State, p: Proc, s': State, pc': Pc, now: int) {
    match p.pc
    case Reading =>
      s'.st == s.st && s'.ref == s.ref && pc' == AfterLookup(s.st, name, HeadOf(s, name), p, Acquiring)
    case Acquiring =>
      && s'.st == s.st && s'.ref == s.ref
      && (pc' == Failed
          || exists epoch: nat :: Checked(name, s, p, pc', now, epoch))
    case Ready(snap, epoch) =>
      var a := Prepare(s.st, name, snap.value, AppendOf(p, epoch), now);
      && s'.ref == s.ref
      && (if snap.value.generation >= U64_MAX then s'.st == s.st && pc' == Failed
          else if a.result.Err? then s'.st == a.st && pc' == Failed
          else s'.st == a.st && (pc' == Failed || pc' == Swapping(snap, epoch, a.result.value)))
    case Swapping(snap, epoch, prepared) =>
      && s'.st == s.st
      && (if !EnforceLiveLease(prepared.next, p.instance, epoch, now) then s'.ref == s.ref && pc' == Failed
          else if Put(s.ref, name, snap.version, prepared.next).Err? then s'.ref == s.ref && pc' == Reading
          else SwapRef(s, s', name, snap.version, prepared.next) && (pc' == Done(prepared.receipt) || pc' == Failed))
    case _ => false
  }

  /** After acquiring: a fresh head whose lease is this instance's, at this
      epoch, and live; then the lookup again. */
  predicate Checked(name: string, s: State, p: Proc, pc': Pc, now: int, epoch: nat) {
    var snap := HeadOf(s, name);
    && snap.version.Some? && LeaseLive(snap.value, now)
    && snap.value.lease.value.writer == p.instance && snap.value.epoch == epoch
    && pc' == AfterLookup(s.st, name, snap, p, Ready(snap, epoch))
  }

  predicate Grown(st: Stores, st': Stores) {
    st.objects <= st'.objects && st.nodes <= st'.nodes && st.cat <= st'.cat && st.chunks <= st'.chunks
  }

  datatype Label =
    | Start(x: nat, instance: string, key: H.Key, payload: seq<Byte>)
    | Run(x: nat, now: int)
    | Claim(op: nat, writer: string, ttl: int, steal: bool, now: int)
    | Release(op: nat, owner: Option<string>, fence: nat, now: int)
    | Renew(writer: string, epoch: nat, ttl: int, now: int, casNow: int)
    | Orphans

  predicate Terminal(pc: Pc) {
    pc.Done? || pc.Conflict? || pc.Failed?
  }

  ghost predicate Runs(name: string, s: State, s': State, x: nat, now: int) {
    && x in s.procs && x in s'.procs && !Terminal(s.procs[x].pc)
    && s'.procs == s.procs[x := s.procs[x].(pc := s'.procs[x].pc)]
    && ((s'.st == s.st && s'.ref == s.ref && s'.procs[x].pc == Failed)
        || Move(name, s, s.procs[x], s', s'.procs[x].pc, now))
  }

  /** A claim or release that won its swap. */
  predicate CommitsPlain(name: string, s: State, s': State, op: nat, next: Result<RefValue, Error>) {
    var head := HeadOf(s, name);
    && next.Ok? && s'.procs == s.procs
    && (var c := PlainCommit(head.value, op, next.value);
        && s'.st == s.st.(objects := s.st.objects + {Digest(c)})
        && SwapRef(s, s', name, head.version, next.value.(headCommit := Some(Digest(c)))))
  }

  ghost predicate Next(name: string, s: State, s': State, l: Label) {
    var head := HeadOf(s, name);
    match l
    case Start(x, instance, key, payload) =>
      var invalid := payload == [] || |payload| > MAX_CHUNK_RAW_BYTES;
      x !in s.procs
      && s' == s.(procs := s.procs[x := Proc(instance, key, payload, if invalid then Failed else Reading)])
    case Run(x, now) => Runs(name, s, s', x, now)
    case Claim(op, writer, ttl, steal, now) =>
      CommitsPlain(name, s, s', op, ClaimNext(head.value, writer, ttl, steal, now))
    case Release(op, owner, fence, now) => CommitsPlain(name, s, s', op, ReleaseNext(head.value, owner, fence, now))
    case Renew(writer, epoch, ttl, now, casNow) =>
      var next := RenewNext(head.value, writer, epoch, ttl, now, casNow);
      head.version.Some? && next.Ok? && s'.procs == s.procs && s'.st == s.st
          && SwapRef(s, s', name, head.version, next.value)
    case Orphans => s'.procs == s.procs && s'.ref == s.ref && Grown(s.st, s'.st)
  }

  predicate Init(s: State) {
    s == State(Stores({}, {}, {}, {}), map[], map[])
  }

  ghost predicate Behavior(name: string, trace: seq<State>, labels: seq<Label>) {
    && |trace| == |labels| + 1
    && Init(trace[0])
    && forall k :: 0 <= k < |labels| ==> Next(name, trace[k], trace[k + 1], labels[k])
  }
}
