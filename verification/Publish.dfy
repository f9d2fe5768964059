/** The publication engine as a step relation.

    Any number of callers run `publish` or `ensure_pending_intent`; every backend
    call is one atomic step. A caller may fail before a step (a crash or a lost
    request) or after its effect (a lost response). Lease renewals and intent-free
    stable-key commits are steps of the environment: their single conditional put
    succeeds only against the snapshot it was computed from. */
module Publish {
  import opened Wrappers
  import opened Backend
  import opened Heads
  import opened Chain

  datatype IntentState = Pending | Applied(generation: nat, commit: Digest, result: Outcome)

  datatype Intent = Intent(
    identity: Identity,
    resource: string,
    request: string,
    base: nat,
    proposed: seq<Digest>,
    state: IntentState)

  datatype Shared = Shared(
    refs: map<string, Cell<RefValue>>,
    intents: map<Identity, Cell<Intent>>,
    objects: set<Digest>)

  type Snapshot = SnapshotOf<Digest>

  datatype Item = Item(identity: Identity, request: string)

  datatype Companion = Companion(identity: Identity, result: Outcome)

  /** A batch is empty for a plain mutation; an append lists its producers, the
      leader first. */
  datatype Call =
    | Publication(resource: string, identity: Identity, request: string, batch: seq<Item>)
    | Ensure(resource: string, identity: Identity, request: string, base: nat)

  datatype Published = Published(
    outcome: Outcome,
    generation: nat,
    epoch: nat,
    commit: Digest,
    value: RefValue,
    admitted: seq<Admission>)

  datatype Draft = Draft(next: RefValue, commit: Commit, outcome: Outcome, companions: seq<Companion>)

  datatype Pc =
    | Loading
    | Scanning
    | CreateHead
    | Creating(base: nat)
    | Cached(intent: Intent, version: nat)
    | CachedScan(intent: Intent, version: nat)
    | CachedHead(intent: Intent, version: nat)
    | Resolving(intent: Intent, version: nat)
    | Snapshotting(intent: Intent, version: nat, base: nat)
    | Arming(intent: Intent, version: nat, snap: Snapshot, draft: Draft)
    | Uploading(snap: Snapshot, draft: Draft)
    | Syncing(snap: Snapshot, draft: Draft, k: nat)
    | SyncWriting(snap: Snapshot, draft: Draft, k: nat, intent: Intent, version: nat)
    | Swapping(snap: Snapshot, draft: Draft)
    | Finalizing(pub: Published, todo: seq<Companion>, k: nat)
    | FinalWriting(pub: Published, todo: seq<Companion>, k: nat, intent: Intent, version: nat)
    | Admitting(intent: Intent, version: nat, snap: Snapshot)
    | Done(pub: Published)
    | Admitted
    | Conflict
    | Failed

  datatype Proc = Proc(call: Call, pc: Pc)

  datatype State = State(shared: Shared, procs: map<nat, Proc>)

  // ---- reading the shared state --------------------------------------------

  function Head(sh: Shared, resource: string): Snapshot {
    HeadIn(sh.refs, resource)
  }

  function Hist(sh: Shared, resource: string): seq<Digest> {
    History(Head(sh, resource).value.headCommit)
  }

  // ---- reading a commit ----------------------------------------------------

  function AdmissionOf(admitted: seq<Admission>, i: Identity): (r: Option<Admission>)
    ensures r.Some? <==> exists a :: a in admitted && a.identity == i
    ensures r.Some? ==> r.value in admitted && r.value.identity == i
  {
    if admitted == [] then None
    else if admitted[0].identity == i then Some(admitted[0])
    else
      var r := AdmissionOf(admitted[1..], i);
      assert forall a :: a in admitted <==> a == admitted[0] || a in admitted[1..];
      r
  }

  predicate Records(c: Commit, i: Identity) {
    c.header.identity == i || AdmissionOf(c.admitted, i).Some?
  }

  predicate RequestAccepted(c: Commit, i: Identity, request: string) {
    c.header.request == request || exists a :: a in c.admitted && a.identity == i && a.request == request
  }

  function OutcomeFromView(c: Commit, i: Identity): Option<Outcome> {
    if c.header.identity == i && c.result.Some? then c.result
    else
      match AdmissionOf(c.admitted, i)
      case Some(a) => Some(Range(a.first, a.last))
      case None => None
  }

  /** The ref value a commit produced, rebuilt from its durable copy. */
  function RestoredRef(d: Digest): RefValue
    requires d.CommitDigest?
  {
    var c := d.commit;
    c.refState.(headCommit := Some(d), target := if c.targetFollowsCommit then Some(d) else c.refState.target)
  }

  function PublishedFromView(d: Digest, i: Identity): Option<Published>
    requires d.CommitDigest?
  {
    var c := d.commit;
    var outcome := OutcomeFromView(c, i);
    if outcome.None? then None
    else if c.refState.name != c.header.resource then None
    else if c.refState.generation != c.header.generation || c.refState.epoch != c.header.epoch then None
    else Some(Published(outcome.value, c.header.generation, c.header.epoch, d, RestoredRef(d), c.admitted))
  }

  /** Newest commit of a history that records an identity, by parent pointers. */
  function FindRecorded(h: seq<Digest>, i: Identity): (r: Option<Digest>)
    ensures r.Some? ==> r.value in h && r.value.CommitDigest? && Records(r.value.commit, i)
    ensures r.None? ==> forall k :: 0 <= k < |h| && h[k].CommitDigest? ==> !Records(h[k].commit, i)
  {
    if h == [] then None
    else
      var last := h[|h| - 1];
      if last.CommitDigest? && Records(last.commit, i) then Some(last) else FindRecorded(h[..|h| - 1], i)
  }

  datatype Recovery = Recovered(pub: Published) | NotFound | Mismatch | Unreadable

  /** recover_without_intent: the scan of the chain from the live head. */
  function Recover(sh: Shared, call: Call): Recovery {
    match FindRecorded(Hist(sh, call.resource), call.identity)
    case None => NotFound
    case Some(d) =>
      if !RequestAccepted(d.commit, call.identity, call.request) then Mismatch
      else
        match PublishedFromView(d, call.identity)
        case Some(p) => Recovered(p)
        case None => Unreadable
  }

  /** try_cached_applied: the Applied row is only a hint; the answer is read from
      the commit that live history holds at its generation. */
  function TryCached(sh: Shared, call: Call, generation: nat, commit: Digest): Option<Published> {
    var h := Hist(sh, call.resource);
    if generation == 0 || generation > Head(sh, call.resource).value.generation || generation > |h| then None
    else
      var d := h[generation - 1];
      if d != commit || d.BlobDigest? then None
      else if d.commit.header.generation != generation || d.commit.header.resource != call.resource then None
      else if !RequestAccepted(d.commit, call.identity, call.request) then None
      else if !Records(d.commit, call.identity) then None
      else PublishedFromView(d, call.identity)
  }

  // ---- what a plan may prepare ----------------------------------------------

  /** The ref value a draft swaps in. */
  function FinalRef(draft: Draft): RefValue {
    var d := CommitDigest(draft.commit);
    draft.next.(headCommit := Some(d),
                target := if draft.commit.targetFollowsCommit then Some(d) else draft.next.target)
  }

  function CompanionsOf(admitted: seq<Admission>): seq<Companion> {
    seq(|admitted|, k requires 0 <= k < |admitted| =>
      Companion(admitted[k].identity, Range(admitted[k].first, admitted[k].last)))
  }

  /** Any mutation plan, prepared on a snapshot: it advances the generation by
      one, and its commit names the snapshot's head as parent, carries the sought
      skip, and stores the ref value without the fields its own digest fills. */
  predicate Prepared(call: Call, snap: Snapshot, draft: Draft) {
    var h := History(snap.value.headCommit);
    var c := draft.commit;
    && call.Publication?
    && snap.value.generation == |h|
    && draft.next.name == call.resource
    && draft.next.generation == snap.value.generation + 1
    && c.header == Header(call.resource, draft.next.generation, draft.next.epoch, call.identity, call.request,
                          snap.value.headCommit, SkipOf(h, |h| + 1))
    && c.result == Some(draft.outcome)
    && c.refState == draft.next.(headCommit := None,
                                 target := if c.targetFollowsCommit then None else draft.next.target)
    && |c.admitted| == |call.batch|
    && (forall k :: 0 <= k < |call.batch| ==>
          c.admitted[k].identity == call.batch[k].identity && c.admitted[k].request == call.batch[k].request)
    && (if call.batch == [] then draft.companions == []
        else draft.companions == CompanionsOf(c.admitted)[1..] && draft.outcome == CompanionsOf(c.admitted)[0].result)
  }

  // ---- conditional writes ---------------------------------------------------

  predicate WritesIntent(sh: Shared, sh': Shared, i: Identity, expected: Option<nat>, intent: Intent) {
    var r := Put(sh.intents, i, expected, intent);
    r.Ok? && sh' == sh.(intents := r.value)
  }

  predicate WritesRef(sh: Shared, sh': Shared, resource: string, expected: Option<nat>, value: RefValue) {
    var r := Put(sh.refs, resource, expected, value);
    r.Ok? && sh' == sh.(refs := r.value)
  }

  /** A conditional put of an intent: it lands and the caller goes on or misses
      the reply, or it is refused and the caller starts over. */
  predicate IntentCas(sh: Shared, sh': Shared, i: Identity, version: nat, intent: Intent, pc': Pc, next: Pc) {
    || (WritesIntent(sh, sh', i, Some(version), intent) && (pc' == next || pc' == Failed))
    || (Put(sh.intents, i, Some(version), intent).Err? && sh' == sh && pc' == Loading)
  }

  // ---- one step of one caller ------------------------------------------------

  predicate Terminal(pc: Pc) {
    pc.Done? || pc.Admitted? || pc.Conflict? || pc.Failed?
  }

  predicate Step(call: Call, sh: Shared, pc: Pc, sh': Shared, pc': Pc) {
    !Terminal(pc) && ((sh' == sh && pc' == Failed) || Move(call, sh, pc, sh', pc'))
  }

  predicate Move(call: Call, sh: Shared, pc: Pc, sh': Shared, pc': Pc) {
    match pc
    case Loading => sh' == sh && pc' == AfterLoad(call, sh)
    case Scanning =>
      sh' == sh && pc' == AfterScan(call, sh, if call.Publication? then CreateHead else Creating(call.base))
    case CreateHead => sh' == sh && pc' == Creating(Head(sh, call.resource).value.generation)
    case Creating(base) => MoveCreate(call, sh, base, sh', pc')
    case Cached(intent, version) =>
      sh' == sh && intent.state.Applied?
      && (match TryCached(sh, call, intent.state.generation, intent.state.commit)
          case Some(p) => pc' == Done(p)
          case None => pc' == CachedScan(intent, version))
    case CachedScan(intent, version) => sh' == sh && pc' == AfterScan(call, sh, CachedHead(intent, version))
    case CachedHead(intent, version) =>
      var snap := Head(sh, call.resource);
      var pending := intent.(state := Pending, base := snap.value.generation);
      sh' == sh && pc' == (if call.Publication? then Resolving(pending, version) else Admitting(pending, version, snap))
    case Resolving(intent, version) => sh' == sh && pc' == AfterResolve(call, sh, intent, version)
    case Snapshotting(intent, version, base) =>
      var snap := Head(sh, call.resource);
      && sh' == sh
      && (if snap.value.generation != base then pc' == Loading
          else pc'.Arming? && pc' == Arming(intent, version, snap, pc'.draft) && Prepared(call, snap, pc'.draft))
    case Arming(intent, version, snap, draft) =>
      IntentCas(sh, sh', call.identity, version,
                intent.(base := snap.value.generation, proposed := [CommitDigest(draft.commit)]),
                pc', Uploading(snap, draft))
    case Uploading(snap, draft) =>
      sh' == sh.(objects := sh.objects + {CommitDigest(draft.commit)})
          && (pc' == Syncing(snap, draft, 0) || pc' == Failed)
    case Syncing(snap, draft, k) => sh' == sh && pc' == AfterSyncLoad(sh, snap, draft, k)
    case SyncWriting(snap, draft, k, intent, version) =>
      && k < |draft.companions|
      && IntentCas(sh, sh', draft.companions[k].identity, version,
                   intent.(proposed := [CommitDigest(draft.commit)]), pc', Syncing(snap, draft, k + 1))
    case Swapping(snap, draft) => MoveSwap(call, sh, snap, draft, sh', pc')
    case Finalizing(pub, todo, k) =>
      && sh' == sh
      && (if k >= |todo| then pc' == Done(pub)
          else if todo[k].identity !in sh.intents then pc' == Finalizing(pub, todo, k + 1)
          else
            var cell := sh.intents[todo[k].identity];
            pc' == Finalizing(pub, todo, k + 1) || pc' == FinalWriting(pub, todo, k, cell.body, cell.version))
    case FinalWriting(pub, todo, k, intent, version) =>
      && k < |todo|
      && (sh' == sh
          || WritesIntent(sh, sh', todo[k].identity, Some(version),
                          intent.(state := Applied(pub.generation, pub.commit, todo[k].result))))
      && (pc' == Finalizing(pub, todo, k + 1) || pc' == Failed)
    case Admitting(intent, version, snap) => IntentCas(sh, sh', call.identity, version, intent, pc', Admitted)
    case _ => false
  }

  /** load_intent, check_intent and the branch on its state. */
  function AfterLoad(call: Call, sh: Shared): Pc {
    if call.identity !in sh.intents then Scanning
    else
      var cell := sh.intents[call.identity];
      if cell.body.resource != call.resource || cell.body.request != call.request then Conflict
      else if cell.body.state.Applied? then Cached(cell.body, cell.version)
      else Resolving(cell.body, cell.version)
  }

  function AfterScan(call: Call, sh: Shared, otherwise: Pc): Pc {
    match Recover(sh, call)
    case Recovered(p) => Done(p)
    case NotFound => otherwise
    case Mismatch => Conflict
    case Unreadable => Failed
  }

  /** Creating the row: an unavailable backend may or may not have taken it, and
      the caller starts over either way. */
  predicate MoveCreate(call: Call, sh: Shared, base: nat, sh': Shared, pc': Pc) {
    var intent := Intent(call.identity, call.resource, call.request, base, [], Pending);
    || (sh' == sh && pc' == Loading)
    || (WritesIntent(sh, sh', call.identity, None, intent)
        && (pc' == Loading || pc' == Failed || (call.Ensure? && pc' == Admitted)))
  }

  /** Resolving a pending intent: only generation base+1 is inspected. */
  function AfterResolve(call: Call, sh: Shared, intent: Intent, version: nat): Pc {
    var snap := Head(sh, call.resource);
    var h := Hist(sh, call.resource);
    var head := snap.value.generation;
    if head == intent.base then
      if call.Publication? then Snapshotting(intent, version, intent.base) else Admitted
    else if head < intent.base || intent.base >= |h| || h[intent.base].BlobDigest? then Failed
    else
      var d := h[intent.base];
      if Records(d.commit, call.identity) then
        if call.Publication? && !RequestAccepted(d.commit, call.identity, call.request) then Conflict
        else
          match PublishedFromView(d, call.identity)
          case Some(p) => Finalizing(p, [Companion(call.identity, p.outcome)], 0)
          case None => Failed
      else if call.Publication? then Snapshotting(intent, version, head)
      else Admitting(intent.(base := head), version, snap)
  }

  /** sync_companions, one companion: it must still be pending at this base. */
  function AfterSyncLoad(sh: Shared, snap: Snapshot, draft: Draft, k: nat): Pc {
    if k >= |draft.companions| then Swapping(snap, draft)
    else if draft.companions[k].identity !in sh.intents then Failed
    else
      var cell := sh.intents[draft.companions[k].identity];
      if cell.body.state.Applied? || cell.body.base != snap.value.generation then Loading
      else SyncWriting(snap, draft, k, cell.body, cell.version)
  }

  predicate MoveSwap(call: Call, sh: Shared, snap: Snapshot, draft: Draft, sh': Shared, pc': Pc) {
    var value := FinalRef(draft);
    var d := CommitDigest(draft.commit);
    var pub := Published(draft.outcome, value.generation, value.epoch, d, value, draft.commit.admitted);
    || (WritesRef(sh, sh', call.resource, snap.version, value)
        && (pc' == Finalizing(pub, [Companion(call.identity, draft.outcome)] + draft.companions, 0) || pc' == Failed))
    || (Put(sh.refs, call.resource, snap.version, value).Err? && sh' == sh && pc' == Loading)
  }

  // ---- the whole system ------------------------------------------------------

  predicate Known(sh: Shared, i: Identity, resource: string, request: string) {
    i in sh.intents && sh.intents[i].body.resource == resource && sh.intents[i].body.request == request
  }

  /** A call may start: a batch starts with its leader, names each producer once,
      and every companion already went through ensure_pending_intent here; an
      ensure carries a generation its caller read from the head before. */
  predicate MayStart(sh: Shared, call: Call) {
    && call.identity.Generic?
    && (call.Publication? ==>
          && (call.batch != [] ==> call.batch[0] == Item(call.identity, call.request))
          && (forall j, k :: 0 <= j < k < |call.batch| ==> call.batch[j].identity != call.batch[k].identity)
          && (forall k :: 0 <= k < |call.batch| ==> call.batch[k].identity.Generic?)
          && (forall k :: 1 <= k < |call.batch| ==>
              Known(sh, call.batch[k].identity, call.resource, call.batch[k].request)))
    && (call.Ensure? ==> call.base <= Head(sh, call.resource).value.generation)
  }

  /** Renewal of a lease: same generation and head, new lease and version. */
  predicate Renews(sh: Shared, sh': Shared, resource: string) {
    && resource in sh.refs && resource in sh'.refs
    && sh'.refs[resource].body
       == sh.refs[resource].body.(lease := sh'.refs[resource].body.lease,
                                  updatedAt := sh'.refs[resource].body.updatedAt)
    && WritesRef(sh, sh', resource, Some(sh.refs[resource].version), sh'.refs[resource].body)
  }

  /** commit_at_snapshot: an intent-free commit under a stable key. */
  predicate CommitsStable(sh: Shared, sh': Shared, resource: string, draft: Draft) {
    var snap := Head(sh, resource);
    var d := CommitDigest(draft.commit);
    && draft.commit.header.identity.Stable?
    && Prepared(Publication(resource, draft.commit.header.identity, draft.commit.header.request, []), snap, draft)
    && WritesRef(sh.(objects := sh.objects + {d}), sh', resource, snap.version, FinalRef(draft))
  }

  /** An object written by a stable-key attempt that never reached its swap. */
  predicate Uploads(sh: Shared, sh': Shared, d: Digest) {
    sh' == sh.(objects := sh.objects + {d})
  }

  predicate Starts(s: State, s': State, x: nat, call: Call) {
    x !in s.procs && MayStart(s.shared, call) && s' == s.(procs := s.procs[x := Proc(call, Loading)])
  }

  predicate Runs(s: State, s': State, x: nat) {
    && x in s.procs && x in s'.procs
    && s'.procs == s.procs[x := Proc(s.procs[x].call, s'.procs[x].pc)]
    && Step(s.procs[x].call, s.shared, s.procs[x].pc, s'.shared, s'.procs[x].pc)
  }

  datatype Label =
    | Start(x: nat, call: Call)
    | Run(x: nat)
    | Renew(resource: string)
    | Stable(resource: string, draft: Draft)
    | Upload(digest: Digest)

  predicate Next(s: State, s': State, l: Label) {
    match l
    case Start(x, call) => Starts(s, s', x, call)
    case Run(x) => Runs(s, s', x)
    case Renew(resource) => s'.procs == s.procs && Renews(s.shared, s'.shared, resource)
    case Stable(resource, draft) => s'.procs == s.procs && CommitsStable(s.shared, s'.shared, resource, draft)
    case Upload(d) => s'.procs == s.procs && Uploads(s.shared, s'.shared, d)
  }

  predicate Init(s: State) {
    s == State(Shared(map[], map[], {}), map[])
  }

  /** A finite run of the system: one label per step. */
  ghost predicate Behavior(trace: seq<State>, labels: seq<Label>) {
    && |trace| == |labels| + 1
    && Init(trace[0])
    && forall k :: 0 <= k < |labels| ==> Next(trace[k], trace[k + 1], labels[k])
  }
}
