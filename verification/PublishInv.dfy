/** The inductive invariant of the publication engine, and the effect each kind
    of shared write has on it. */
module PublishInv {
  import opened Wrappers
  import opened Backend
  import opened Chain
  import opened Publish

  // ---- shared-state invariant ------------------------------------------------

  predicate RecordedAt(sh: Shared, resource: string, g: nat, i: Identity) {
    var h := Hist(sh, resource);
    1 <= g <= |h| && h[g - 1].CommitDigest? && Records(h[g - 1].commit, i)
  }

  predicate RequestsAgree(c: Commit, i: Identity, request: string) {
    && (c.header.identity == i ==> c.header.request == request)
    && (forall a :: a in c.admitted && a.identity == i ==> a.request == request)
  }

  /** What a commit owes an identity it records: its own result under its header
      identity, the admitted range under any it admitted. */
  predicate Owes(c: Commit, i: Identity, outcome: Outcome) {
    && (c.header.identity == i ==> c.result == Some(outcome))
    && (forall a :: a in c.admitted && a.identity == i ==> outcome == Range(a.first, a.last))
  }

  /** No identity rides twice in one batch, and the leader's range is the result. */
  predicate AdmitsOnce(c: Commit) {
    && (forall j, k :: 0 <= j < k < |c.admitted| ==> c.admitted[j].identity != c.admitted[k].identity)
    && (forall a :: a in c.admitted && a.identity == c.header.identity ==> c.result == Some(Range(a.first, a.last)))
  }

  /** A digest from which published_from_view can answer, in one way. */
  predicate Restorable(d: Digest) {
    && d.CommitDigest?
    && AdmitsOnce(d.commit)
    && d.commit.result.Some?
    && d.commit.refState.name == d.commit.header.resource
    && d.commit.refState.generation == d.commit.header.generation
    && d.commit.refState.epoch == d.commit.header.epoch
  }

  ghost predicate RefOk(sh: Shared, resource: string) {
    var h := Hist(sh, resource);
    && (resource in sh.refs ==> sh.refs[resource].version >= 1 && sh.refs[resource].body.name == resource)
    && Head(sh, resource).value.generation == |h|
    && Dense(sh.objects, resource, h)
    && (forall k :: 0 <= k < |h| ==> Restorable(h[k]))
  }

  /** An applied row names the commit that records its identity, and the outcome
      that commit owes it. */
  predicate AppliedOk(sh: Shared, row: Intent)
    requires row.state.Applied?
  {
    && RecordedAt(sh, row.resource, row.state.generation, row.identity)
    && Hist(sh, row.resource)[row.state.generation - 1] == row.state.commit
    && Owes(row.state.commit.commit, row.identity, row.state.result)
  }

  predicate IntentOk(sh: Shared, i: Identity) {
    i in sh.intents ==>
      var row := sh.intents[i].body;
      && row.identity == i
      && row.base <= |Hist(sh, row.resource)|
      && (row.state.Applied? ==> AppliedOk(sh, row))
  }

  /** What the intent row of a recorded identity looks like: applied at that
      generation, or pending exactly one below it. */
  predicate Justified(sh: Shared, resource: string, g: nat, i: Identity)
    requires RecordedAt(sh, resource, g, i)
  {
    && i in sh.intents
    && sh.intents[i].body.resource == resource
    && (match sh.intents[i].body.state
        case Applied(at, _, _) => at == g
        case Pending => sh.intents[i].body.base + 1 == g)
    && RequestsAgree(Hist(sh, resource)[g - 1].commit, i, sh.intents[i].body.request)
  }

  ghost predicate SharedInv(sh: Shared) {
    && (forall resource :: RefOk(sh, resource))
    && (forall i :: IntentOk(sh, i))
    && (forall resource, g, i: Identity :: i.Generic? && RecordedAt(sh, resource, g, i) ==>
        Justified(sh, resource, g, i))
  }

  // ---- caller invariant --------------------------------------------------------

  predicate Held(sh: Shared, i: Identity, call: Call, request: string, intent: Intent, version: nat) {
    && Known(sh, i, call.resource, request)
    && intent.identity == i && intent.resource == call.resource && intent.request == request
    && intent.base <= |Hist(sh, call.resource)|
    && version <= sh.intents[i].version
    && (version == sh.intents[i].version ==> sh.intents[i].body == intent)
  }

  function VersionNumber(snap: Snapshot): nat {
    if snap.version.Some? then snap.version.value else 0
  }

  predicate Live(sh: Shared, call: Call, snap: Snapshot) {
    VersionNumber(snap) == VersionNumber(Head(sh, call.resource))
  }

  predicate SnapOk(sh: Shared, call: Call, snap: Snapshot) {
    && VersionNumber(snap) <= VersionNumber(Head(sh, call.resource))
    && (Live(sh, call, snap) ==> snap == Head(sh, call.resource))
    && snap.value.generation <= |Hist(sh, call.resource)|
  }

  /** The row may be moved to `base`: nothing is recorded where it points now. */
  predicate Rebasable(sh: Shared, call: Call, intent: Intent, base: nat) {
    && base <= |Hist(sh, call.resource)|
    && (base != intent.base ==>
          intent.base + 1 <= |Hist(sh, call.resource)|
              && !RecordedAt(sh, call.resource, intent.base + 1, call.identity))
  }

  predicate DraftOk(call: Call, snap: Snapshot, draft: Draft) {
    Prepared(call, snap, draft) && |draft.companions| == (if call.batch == [] then 0 else |call.batch| - 1)
  }

  /** A published result that answers for call.identity: it is what the commit
      at some generation of the ref restores, and the request it was returned
      for is the recorded one, unless the caller's request is the leader's. */
  predicate Answers(sh: Shared, call: Call, pub: Published) {
    var g := pub.generation;
    && RecordedAt(sh, call.resource, g, call.identity)
    && pub.commit == Hist(sh, call.resource)[g - 1]
    && PublishedFromView(pub.commit, call.identity) == Some(pub)
    && RequestAccepted(pub.commit.commit, call.identity, call.request)
  }

  predicate TodoOk(sh: Shared, call: Call, pub: Published, todo: seq<Companion>) {
    forall k :: 0 <= k < |todo| ==>
      && todo[k].identity.Generic?
      && RecordedAt(sh, call.resource, pub.generation, todo[k].identity)
      && Owes(Hist(sh, call.resource)[pub.generation - 1].commit, todo[k].identity, todo[k].result)
  }

  predicate CallOk(sh: Shared, call: Call) {
    && call.identity.Generic?
    && (call.Publication? ==>
          && (call.batch != [] ==> call.batch[0] == Item(call.identity, call.request))
          && (forall j, k :: 0 <= j < k < |call.batch| ==> call.batch[j].identity != call.batch[k].identity)
          && (forall k :: 0 <= k < |call.batch| ==> call.batch[k].identity.Generic?)
          && (forall k :: 1 <= k < |call.batch| ==>
              Known(sh, call.batch[k].identity, call.resource, call.batch[k].request)))
    && (call.Ensure? ==> call.base <= |Hist(sh, call.resource)|)
  }

  predicate PcOk(sh: Shared, call: Call, pc: Pc) {
    match pc
    case Creating(base) => base <= |Hist(sh, call.resource)|
    case Cached(intent, version) =>
      Held(sh, call.identity, call, call.request, intent, version) && AppliedHint(sh, call, intent)
    case CachedScan(intent, version) => false
    case CachedHead(intent, version) => false
    case Resolving(intent, version) =>
      Held(sh, call.identity, call, call.request, intent, version) && intent.state.Pending?
    case Snapshotting(intent, version, base) =>
      && call.Publication? && Held(sh, call.identity, call, call.request, intent, version) && intent.state.Pending?
      && Rebasable(sh, call, intent, base)
    case Arming(intent, version, snap, draft) =>
      && call.Publication? && Held(sh, call.identity, call, call.request, intent, version) && intent.state.Pending?
      && Rebasable(sh, call, intent, snap.value.generation) && SnapOk(sh, call, snap) && DraftOk(call, snap, draft)
    case Uploading(snap, draft) => ArmedPcOk(sh, call, snap, draft)
    case Syncing(snap, draft, k) =>
      ArmedPcOk(sh, call, snap, draft) && CommitDigest(draft.commit) in sh.objects && k <= |draft.companions|
    case SyncWriting(snap, draft, k, intent, version) =>
      && ArmedPcOk(sh, call, snap, draft) && CommitDigest(draft.commit) in sh.objects && k < |draft.companions|
      && Held(sh, draft.companions[k].identity, call, call.batch[k + 1].request, intent, version)
      && intent.state.Pending? && intent.base == snap.value.generation
    case Swapping(snap, draft) => ArmedPcOk(sh, call, snap, draft) && CommitDigest(draft.commit) in sh.objects
    case Finalizing(pub, todo, k) =>
      && Known(sh, call.identity, call.resource, call.request)
      && Answers(sh, call, pub) && TodoOk(sh, call, pub, todo) && k <= |todo|
    case FinalWriting(pub, todo, k, intent, version) =>
      && Known(sh, call.identity, call.resource, call.request)
      && Answers(sh, call, pub) && TodoOk(sh, call, pub, todo) && k < |todo|
      && Known(sh, todo[k].identity, call.resource, intent.request)
      && intent.identity == todo[k].identity && intent.resource == call.resource
      && version <= sh.intents[todo[k].identity].version
      && (version == sh.intents[todo[k].identity].version ==> sh.intents[todo[k].identity].body == intent)
    case Admitting(intent, version, snap) =>
      && call.Ensure? && intent.state.Pending? && intent.base == snap.value.generation && SnapOk(sh, call, snap)
      && Known(sh, call.identity, call.resource, call.request)
      && intent.identity == call.identity && intent.resource == call.resource && intent.request == call.request
      && version <= sh.intents[call.identity].version
      && (version == sh.intents[call.identity].version ==>
            Rebasable(sh, call, sh.intents[call.identity].body, intent.base)
                && sh.intents[call.identity].body.state.Pending?)
    case Done(pub) => Answers(sh, call, pub)
    case Admitted => call.Ensure? && Known(sh, call.identity, call.resource, call.request)
    case Conflict => call.identity in sh.intents && !Known(sh, call.identity, call.resource, call.request)
    case _ => true
  }

  /** An applied row that was loaded: its commit is in live history. */
  predicate AppliedHint(sh: Shared, call: Call, intent: Intent) {
    && intent.state.Applied?
    && RecordedAt(sh, call.resource, intent.state.generation, call.identity)
    && Hist(sh, call.resource)[intent.state.generation - 1] == intent.state.commit
    && RequestsAgree(intent.state.commit.commit, call.identity, call.request)
  }

  predicate ArmedPcOk(sh: Shared, call: Call, snap: Snapshot, draft: Draft) {
    && call.Publication? && SnapOk(sh, call, snap) && DraftOk(call, snap, draft)
    && Known(sh, call.identity, call.resource, call.request)
  }

  // ---- armed intents --------------------------------------------------------------

  /** The snapshot a caller will swap against, once it has one. */
  function SnapOf(pc: Pc): Option<Snapshot> {
    match pc
    case Arming(_, _, snap, _) => Some(snap)
    case Uploading(snap, _) => Some(snap)
    case Syncing(snap, _, _) => Some(snap)
    case SyncWriting(snap, _, _, _, _) => Some(snap)
    case Swapping(snap, _) => Some(snap)
    case Admitting(_, _, snap) => Some(snap)
    case _ => None
  }

  /** Identities whose row this caller has already moved to its base. */
  predicate Armed(call: Call, pc: Pc, i: Identity) {
    match pc
    case Uploading(_, _) => i == call.identity
    case Syncing(_, draft, k) =>
      i == call.identity || (exists j :: 0 <= j < k && j < |draft.companions| && draft.companions[j].identity == i)
    case SyncWriting(_, draft, k, _, _) =>
      i == call.identity || (exists j :: 0 <= j < k && j < |draft.companions| && draft.companions[j].identity == i)
    case Swapping(_, draft) =>
      i == call.identity || (exists j :: 0 <= j < |draft.companions| && draft.companions[j].identity == i)
    case _ => false
  }

  /** While an armed caller's snapshot is live, its rows are pending at its base. */
  predicate ArmedRow(sh: Shared, p: Proc, i: Identity) {
    Armed(p.call, p.pc, i) && SnapOf(p.pc).Some? && Live(sh, p.call, SnapOf(p.pc).value) ==>
      && i in sh.intents
      && sh.intents[i].body.resource == p.call.resource
      && sh.intents[i].body.state.Pending?
      && sh.intents[i].body.base == SnapOf(p.pc).value.value.generation
  }

  /** The version this caller will offer when it writes its own row with a base
      taken from its snapshot. */
  function Offers(pc: Pc): Option<nat> {
    match pc
    case Arming(_, version, _, _) => Some(version)
    case Admitting(_, version, _) => Some(version)
    case _ => None
  }

  /** Why loading the intent before reading the head matters: if q could still
      rewrite a row armed by p, then q read the head after p did, so q's
      snapshot is live whenever p's is. */
  predicate Ordered(sh: Shared, p: Proc, q: Proc) {
    var i := q.call.identity;
    Armed(p.call, p.pc, i) && SnapOf(p.pc).Some? && Live(sh, p.call, SnapOf(p.pc).value)
    && Offers(q.pc).Some? && SnapOf(q.pc).Some? && Offers(q.pc) == LiveVersion(sh.intents, i)
    ==> Live(sh, q.call, SnapOf(q.pc).value)
  }

  ghost predicate Inv(s: State) {
    && SharedInv(s.shared)
    && (forall x :: x in s.procs ==>
        CallOk(s.shared, s.procs[x].call) && PcOk(s.shared, s.procs[x].call, s.procs[x].pc))
    && (forall x, i :: x in s.procs ==> ArmedRow(s.shared, s.procs[x], i))
    && (forall x, y :: x in s.procs && y in s.procs ==> Ordered(s.shared, s.procs[x], s.procs[y]))
  }

  // ---- monotone facts ---------------------------------------------------------------

  /** Everything that only ever grows: histories are extended, rows keep their
      resource and request, versions do not fall. */
  ghost predicate Grows(sh: Shared, sh': Shared) {
    && sh.objects <= sh'.objects
    && (forall r :: Hist(sh, r) <= Hist(sh', r))
    && (forall r :: VersionNumber(Head(sh, r)) <= VersionNumber(Head(sh', r)))
    && (forall r :: VersionNumber(Head(sh, r)) == VersionNumber(Head(sh', r)) ==> Head(sh, r) == Head(sh', r))
    && (forall i :: i in sh.intents ==>
          && i in sh'.intents
          && sh.intents[i].version <= sh'.intents[i].version
          && (sh.intents[i].version == sh'.intents[i].version ==> sh.intents[i] == sh'.intents[i])
          && sh'.intents[i].body.resource == sh.intents[i].body.resource
          && sh'.intents[i].body.request == sh.intents[i].body.request)
  }

  lemma RecordedStays(sh: Shared, sh': Shared, r: string, g: nat, i: Identity)
    requires Grows(sh, sh') && 1 <= g <= |Hist(sh, r)|
    ensures g <= |Hist(sh', r)| && Hist(sh', r)[g - 1] == Hist(sh, r)[g - 1]
    ensures RecordedAt(sh', r, g, i) <==> RecordedAt(sh, r, g, i)
  {
    assert Hist(sh, r) <= Hist(sh', r);
  }
}
