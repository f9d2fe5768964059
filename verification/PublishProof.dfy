/** Every step of every caller and of the environment keeps the invariant; what
    reachable states then promise. */
module PublishProof {
  import opened Wrappers
  import opened Backend
  import opened Chain
  import opened Publish
  import opened PublishInv
  import opened PublishSteps

  // ---- reading a commit that agrees with an intent ---------------------------------

  lemma AgreedIsAccepted(c: Commit, i: Identity, request: string)
    requires Records(c, i) && RequestsAgree(c, i, request)
    ensures RequestAccepted(c, i, request)
  {
    if c.header.identity != i {
      var a := AdmissionOf(c.admitted, i).value;
      assert a in c.admitted;
    }
  }

  lemma RecordedIsRestorable(sh: Shared, r: string, g: nat, i: Identity)
    requires SharedInv(sh) && RecordedAt(sh, r, g, i)
    ensures Hist(sh, r)[g - 1].commit.header.generation == g
    ensures Hist(sh, r)[g - 1].commit.header.resource == r
    ensures PublishedFromView(Hist(sh, r)[g - 1], i).Some?
    ensures i.Generic? ==> Justified(sh, r, g, i)
  {
    assert RefOk(sh, r);
    assert Link(sh.objects, r, Hist(sh, r), g - 1);
    assert Restorable(Hist(sh, r)[g - 1]);
  }

  lemma ViewOwes(d: Digest, i: Identity)
    requires d.CommitDigest? && AdmitsOnce(d.commit) && PublishedFromView(d, i).Some?
    requires d.commit.result.Some?
    ensures Owes(d.commit, i, PublishedFromView(d, i).value.outcome)
  {
  }

  /** Answers, from a recorded commit and an accepted request. */
  lemma RecordedAnswers(sh: Shared, call: Call, g: nat)
    requires SharedInv(sh) && RecordedAt(sh, call.resource, g, call.identity)
    requires RequestAccepted(Hist(sh, call.resource)[g - 1].commit, call.identity, call.request)
    ensures PublishedFromView(Hist(sh, call.resource)[g - 1], call.identity).Some?
    ensures Answers(sh, call, PublishedFromView(Hist(sh, call.resource)[g - 1], call.identity).value)
  {
    RecordedIsRestorable(sh, call.resource, g, call.identity);
  }

  /** An answer gives its caller what the commit owes it. */
  lemma AnswersOwe(sh: Shared, call: Call, pub: Published)
    requires SharedInv(sh) && Answers(sh, call, pub)
    ensures pub.commit.CommitDigest? && Owes(pub.commit.commit, call.identity, pub.outcome)
  {
    HistoryIsCommits(sh, call.resource, pub.generation - 1);
    hide SharedInv, Hist, Owes, Records, RequestAccepted;
    ViewOwes(pub.commit, call.identity);
  }

  // ---- what a caller knows after a step that only reads ---------------------------------

  /** The moving caller's side of a step that changes nothing shared. */
  ghost predicate ReadFacts(sh: Shared, call: Call, pc: Pc, pc': Pc) {
    && PcOk(sh, call, pc')
    && (Offers(pc').Some? ==> SnapOf(pc') == Some(Head(sh, call.resource)))
    && (forall i :: Armed(call, pc', i) ==> Armed(call, pc, i) && SnapOf(pc') == SnapOf(pc))
  }

  lemma LoadFacts(sh: Shared, call: Call)
    requires SharedInv(sh) && CallOk(sh, call)
    ensures ReadFacts(sh, call, Loading, AfterLoad(call, sh))
  {
    RowIsOk(sh, call.identity);
    var pc' := AfterLoad(call, sh);
    if pc'.Cached? {
      RecordedIsRestorable(sh, call.resource, pc'.intent.state.generation, call.identity);
    }
    hide SharedInv, Owes, Hist, RequestsAgree, PublishedFromView;
  }

  lemma ScanFinds(sh: Shared, call: Call)
    requires SharedInv(sh) && call.identity.Generic?
    ensures Recover(sh, call).Recovered? ==> Answers(sh, call, Recover(sh, call).pub)
    ensures Recover(sh, call).Mismatch? ==>
              call.identity in sh.intents && !Known(sh, call.identity, call.resource, call.request)
    ensures !Recover(sh, call).Unreadable?
  {
    var h := Hist(sh, call.resource);
    var found := FindRecorded(h, call.identity);
    if found.Some? {
      var k :| 0 <= k < |h| && h[k] == found.value;
      assert RecordedAt(sh, call.resource, k + 1, call.identity);
      RecordedIsRestorable(sh, call.resource, k + 1, call.identity);
      if RequestAccepted(found.value.commit, call.identity, call.request) {
        RecordedAnswers(sh, call, k + 1);
      } else if Known(sh, call.identity, call.resource, call.request) {
        AgreedIsAccepted(found.value.commit, call.identity, call.request);
      }
    }
  }

  lemma ScanFacts(sh: Shared, call: Call, otherwise: Pc)
    requires SharedInv(sh) && CallOk(sh, call)
    requires otherwise == if call.Publication? then CreateHead else Creating(call.base)
    ensures ReadFacts(sh, call, Scanning, AfterScan(call, sh, otherwise))
  {
    hide SharedInv, Recover, Answers, Known;
    ScanFinds(sh, call);
  }

  lemma CachedFacts(sh: Shared, call: Call, intent: Intent)
    requires SharedInv(sh) && AppliedHint(sh, call, intent)
    ensures TryCached(sh, call, intent.state.generation, intent.state.commit).Some?
    ensures Answers(sh, call, TryCached(sh, call, intent.state.generation, intent.state.commit).value)
  {
    var g := intent.state.generation;
    assert RefOk(sh, call.resource);
    RecordedIsRestorable(sh, call.resource, g, call.identity);
    AgreedIsAccepted(Hist(sh, call.resource)[g - 1].commit, call.identity, call.request);
    RecordedAnswers(sh, call, g);
  }

  lemma ResolveFacts(sh: Shared, call: Call, intent: Intent, version: nat)
    requires SharedInv(sh) && CallOk(sh, call) && PcOk(sh, call, Resolving(intent, version))
    ensures ReadFacts(sh, call, Resolving(intent, version), AfterResolve(call, sh, intent, version))
    ensures !AfterResolve(call, sh, intent, version).Conflict? && !AfterResolve(call, sh, intent, version).Failed?
  {
    hide SharedInv, CallOk, PcOk, Head, Records, RequestAccepted, PublishedFromView;
    ResolveStaysBehind(sh, call, intent, version);
    var head := Head(sh, call.resource).value.generation;
    if head == intent.base {
      ResolveInPlace(sh, call, intent, version);
    } else if RecordedAt(sh, call.resource, intent.base + 1, call.identity) {
      ResolveFound(sh, call, intent, version);
    } else {
      ResolveMoves(sh, call, intent, version);
    }
  }

  lemma ResolveInPlace(sh: Shared, call: Call, intent: Intent, version: nat)
    requires PcOk(sh, call, Resolving(intent, version)) && intent.base == |Hist(sh, call.resource)|
    ensures call.Publication? ==>
            ReadFacts(sh, call, Resolving(intent, version), Snapshotting(intent, version, intent.base))
    ensures call.Ensure? ==> ReadFacts(sh, call, Resolving(intent, version), Admitted)
  {
    hide Hist;
  }

  /** The commit a pending row points at answers for the row's own request. */
  lemma ResolveFound(sh: Shared, call: Call, intent: Intent, version: nat)
    requires SharedInv(sh) && CallOk(sh, call) && PcOk(sh, call, Resolving(intent, version))
    requires RecordedAt(sh, call.resource, intent.base + 1, call.identity)
    ensures var d := Hist(sh, call.resource)[intent.base];
            var p := PublishedFromView(d, call.identity);
            && RequestAccepted(d.commit, call.identity, call.request) && p.Some?
            && ReadFacts(sh, call, Resolving(intent, version),
                         Finalizing(p.value, [Companion(call.identity, p.value.outcome)], 0))
  {
    hide SharedInv, Hist, RequestAccepted, PublishedFromView;
    AgreedRow(sh, call, intent.base + 1, intent.request);
    RecordedAnswers(sh, call, intent.base + 1);
    AnswersOwe(sh, call, PublishedFromView(Hist(sh, call.resource)[intent.base], call.identity).value);
  }

  /** Nothing is recorded where the row points, so it may be moved to the head. */
  lemma ResolveMoves(sh: Shared, call: Call, intent: Intent, version: nat)
    requires SharedInv(sh) && PcOk(sh, call, Resolving(intent, version))
    requires !RecordedAt(sh, call.resource, intent.base + 1, call.identity)
    requires intent.base < Head(sh, call.resource).value.generation == |Hist(sh, call.resource)|
    ensures var snap := Head(sh, call.resource);
            && 0 <= intent.base < |Hist(sh, call.resource)| && Hist(sh, call.resource)[intent.base].CommitDigest?
            && (call.Publication? ==>
                  ReadFacts(sh, call, Resolving(intent, version), Snapshotting(intent, version, snap.value.generation)))
            && (call.Ensure? ==>
                  ReadFacts(sh, call, Resolving(intent, version),
                            Admitting(intent.(base := snap.value.generation), version, snap)))
  {
    HistoryIsCommits(sh, call.resource, intent.base);
    hide SharedInv, Hist, RecordedAt;
  }

  lemma HistoryIsCommits(sh: Shared, r: string, k: nat)
    requires SharedInv(sh) && k < |Hist(sh, r)|
    ensures Restorable(Hist(sh, r)[k])
  {
    hide Hist;
    assert RefOk(sh, r);
    assert Restorable(Hist(sh, r)[k]);
  }

  /** A loaded row never points past the head: "behind intent base" cannot happen. */
  lemma ResolveStaysBehind(sh: Shared, call: Call, intent: Intent, version: nat)
    requires SharedInv(sh) && PcOk(sh, call, Resolving(intent, version))
    ensures intent.base <= Head(sh, call.resource).value.generation == |Hist(sh, call.resource)|
  {
    assert RefOk(sh, call.resource);
  }

  lemma AgreedRow(sh: Shared, call: Call, g: nat, request: string)
    requires SharedInv(sh) && RecordedAt(sh, call.resource, g, call.identity) && call.identity.Generic?
    requires Known(sh, call.identity, call.resource, request)
    ensures RequestAccepted(Hist(sh, call.resource)[g - 1].commit, call.identity, request)
  {
    assert Justified(sh, call.resource, g, call.identity);
    AgreedIsAccepted(Hist(sh, call.resource)[g - 1].commit, call.identity, request);
  }

  lemma SnapshotFacts(sh: Shared, call: Call, intent: Intent, version: nat, base: nat, draft: Draft)
    requires SharedInv(sh) && PcOk(sh, call, Snapshotting(intent, version, base))
    requires Head(sh, call.resource).value.generation == base && Prepared(call, Head(sh, call.resource), draft)
    ensures ReadFacts(sh, call, Snapshotting(intent, version, base),
                      Arming(intent, version, Head(sh, call.resource), draft))
  {
    assert RefOk(sh, call.resource);
  }

  lemma SyncLoadFacts(sh: Shared, call: Call, snap: Snapshot, draft: Draft, k: nat)
    requires SharedInv(sh) && CallOk(sh, call) && PcOk(sh, call, Syncing(snap, draft, k))
    ensures ReadFacts(sh, call, Syncing(snap, draft, k), AfterSyncLoad(sh, snap, draft, k))
  {
    hide SharedInv, CallOk, SnapOk, Held, IntentOk, DraftOk, Known;
    if k < |draft.companions| {
      SyncRowHeld(sh, call, snap, draft, k);
    }
  }

  /** The companion row that a sync loads. */
  lemma SyncRowHeld(sh: Shared, call: Call, snap: Snapshot, draft: Draft, k: nat)
    requires SharedInv(sh) && CallOk(sh, call) && DraftOk(call, snap, draft) && k < |draft.companions|
    ensures k + 1 < |call.batch| && draft.companions[k].identity in sh.intents
    ensures var cell := sh.intents[draft.companions[k].identity];
            Held(sh, draft.companions[k].identity, call, call.batch[k + 1].request, cell.body, cell.version)
  {
    hide SharedInv, CallOk, DraftOk, RecordedAt, Hist;
    CompanionIsKnown(sh, call, snap, draft, k);
    RowIsOk(sh, draft.companions[k].identity);
  }

  /** The companion at k of a draft is producer k+1 of its batch, whose row exists. */
  lemma CompanionIsKnown(sh: Shared, call: Call, snap: Snapshot, draft: Draft, k: nat)
    requires CallOk(sh, call) && DraftOk(call, snap, draft) && k < |draft.companions|
    ensures call.Publication? && k + 1 < |call.batch| && draft.companions[k].identity == call.batch[k + 1].identity
    ensures Known(sh, draft.companions[k].identity, call.resource, call.batch[k + 1].request)
  {
  }

  lemma RowIsOk(sh: Shared, i: Identity)
    requires SharedInv(sh)
    ensures IntentOk(sh, i)
  {
    hide IntentOk, RefOk, RecordedAt;
  }

  lemma FinalLoadFacts(sh: Shared, call: Call, pub: Published, todo: seq<Companion>, k: nat)
    requires SharedInv(sh) && PcOk(sh, call, Finalizing(pub, todo, k)) && k < |todo| && todo[k].identity in sh.intents
    ensures PcOk(sh, call,
                 FinalWriting(pub, todo, k, sh.intents[todo[k].identity].body, sh.intents[todo[k].identity].version))
  {
    hide Answers, RecordedAt, PublishedFromView;
    assert IntentOk(sh, todo[k].identity);
    RecordedIsRestorable(sh, call.resource, pub.generation, todo[k].identity);
  }

  // ---- assembling a step from its parts ------------------------------------------------------

  ghost predicate Moved(s: State, s': State, x: nat, call: Call, pc: Pc, pc': Pc) {
    x in s.procs && s.procs[x] == Proc(call, pc) && s'.procs == s.procs[x := Proc(call, pc')]
  }

  lemma ReadStep(s: State, s': State, x: nat, call: Call, pc: Pc, pc': Pc)
    requires Inv(s) && Moved(s, s', x, call, pc, pc') && s'.shared == s.shared
    requires ReadFacts(s.shared, call, pc, pc')
    ensures Inv(s')
  {
    hide SharedInv, Ordered, PcOk, CallOk;
    forall i ensures ArmedRow(s'.shared, Proc(call, pc'), i) {
      assert ArmedRow(s.shared, s.procs[x], i);
    }
    OthersWhenRowsKept(s, s'.shared, x);
    Assemble(s, s', x, pc, call, pc');
  }

  /** Failing, or starting over, is always allowed. */
  lemma DropStep(s: State, s': State, x: nat, call: Call, pc: Pc, pc': Pc)
    requires Inv(s) && Moved(s, s', x, call, pc, pc') && s'.shared == s.shared && (pc' == Failed || pc' == Loading)
    ensures Inv(s')
  {
    hide Inv, Moved;
    ReadStep(s, s', x, call, pc, pc');
  }

  /** What a write of row j does to the shared state, as the other callers see it. */
  ghost predicate RowWritten(sh: Shared, sh': Shared, j: Identity, row: Intent) {
    && SharedInv(sh') && Grows(sh, sh')
    && j in sh'.intents && sh'.intents[j].body == row
    && (j in sh.intents ==> sh'.intents[j].version > sh.intents[j].version)
    && (forall i :: i != j ==> (i in sh'.intents <==> i in sh.intents))
    && (forall i :: i != j && i in sh.intents ==> sh'.intents[i] == sh.intents[i])
  }

  /** Live armed callers other than x accept the new row. */
  ghost predicate OthersAccept(s: State, x: nat, j: Identity, row: Intent) {
    forall y :: y in s.procs && y != x && Armed(s.procs[y].call, s.procs[y].pc, j) && SnapOf(s.procs[y].pc).Some?
                && Live(s.shared, s.procs[y].call, SnapOf(s.procs[y].pc).value)
                ==> row.state.Pending? && row.base == SnapOf(s.procs[y].pc).value.value.generation
  }

  /** The mover's side of a row write: it may have armed j and nothing else. */
  ghost predicate WriteFacts(sh: Shared, sh': Shared, call: Call, pc: Pc, pc': Pc, j: Identity) {
    && PcOk(sh', call, pc') && Offers(pc').None?
    && (forall i :: Armed(call, pc', i) ==>
        (Armed(call, pc, i) && SnapOf(pc') == SnapOf(pc)) || (i == j && j in sh.intents))
    && (Armed(call, pc', j) ==> ArmedRow(sh', Proc(call, pc'), j))
  }

  lemma WriteStep(s: State, s': State, x: nat, call: Call, pc: Pc, pc': Pc, j: Identity, row: Intent)
    requires Inv(s) && Moved(s, s', x, call, pc, pc')
    requires RowWritten(s.shared, s'.shared, j, row) && OthersAccept(s, x, j, row)
    requires WriteFacts(s.shared, s'.shared, call, pc, pc', j)
    ensures Inv(s')
  {
    hide Inv, SharedInv, Grows, PcOk, CallOk, ArmedRow, OthersRows;
    MoverRows(s, s', x, call, pc, pc', j, row);
    OthersWhenRewritten(s, s'.shared, x, j, row);
    Assemble(s, s', x, pc, call, pc');
  }

  lemma MoverRows(s: State, s': State, x: nat, call: Call, pc: Pc, pc': Pc, j: Identity, row: Intent)
    requires Inv(s) && Moved(s, s', x, call, pc, pc') && RowWritten(s.shared, s'.shared, j, row)
    requires WriteFacts(s.shared, s'.shared, call, pc, pc', j)
    ensures forall i :: ArmedRow(s'.shared, Proc(call, pc'), i)
  {
    hide SharedInv, Grows, CallOk, Ordered, Live;
    forall i ensures ArmedRow(s'.shared, Proc(call, pc'), i) {
      if Armed(call, pc', i) && i != j {
        assert ArmedRow(s.shared, s.procs[x], i);
        ArmedRowStays(s.shared, s'.shared, s.procs[x], i);
      }
    }
  }

  // ---- steps that write an intent row ------------------------------------------------

  lemma CreateStep(s: State, s': State, x: nat, call: Call, base: nat, pc': Pc)
    requires Inv(s) && Moved(s, s', x, call, Creating(base), pc') && MoveCreate(call, s.shared, base, s'.shared, pc')
    ensures Inv(s')
  {
    hide Inv, SharedInv, CallOk, PcOk, RowWritten, WriteFacts, OthersAccept, WritesIntent, Grows;
    var sh, sh' := s.shared, s'.shared;
    var row := Intent(call.identity, call.resource, call.request, base, [], Pending);
    if sh' == sh && pc' == Loading {
      DropStep(s, s', x, call, Creating(base), pc');
    } else {
      MoverOk(s, s', x, call, Creating(base), pc');
      CreatedShared(sh, sh', call, base, row, pc');
      NobodyArmedAbsent(s, call.identity);
      NobodyLiveAccepts(s, x, call.identity, row);
      WriteStep(s, s', x, call, Creating(base), pc', call.identity, row);
    }
  }

  lemma CreatedShared(sh: Shared, sh': Shared, call: Call, base: nat, row: Intent, pc': Pc)
    requires SharedInv(sh) && PcOk(sh, call, Creating(base)) && WritesIntent(sh, sh', call.identity, None, row)
    requires row == Intent(call.identity, call.resource, call.request, base, [], Pending)
    requires pc' == Loading || pc' == Failed || (call.Ensure? && pc' == Admitted)
    ensures call.identity !in sh.intents && RowWritten(sh, sh', call.identity, row)
    ensures WriteFacts(sh, sh', call, Creating(base), pc', call.identity)
  {
    hide SharedInv, Grows, WritesIntent, Hist;
    SharedCreates(sh, sh', call.identity, row);
  }

  lemma NobodyArmedAbsent(s: State, j: Identity)
    requires Inv(s) && j !in s.shared.intents
    ensures forall y :: y in s.procs && Armed(s.procs[y].call, s.procs[y].pc, j) && SnapOf(s.procs[y].pc).Some?
                        ==> !Live(s.shared, s.procs[y].call, SnapOf(s.procs[y].pc).value)
  {
    forall y | y in s.procs && Armed(s.procs[y].call, s.procs[y].pc, j) && SnapOf(s.procs[y].pc).Some?
      ensures !Live(s.shared, s.procs[y].call, SnapOf(s.procs[y].pc).value)
    {
      assert ArmedRow(s.shared, s.procs[y], j);
    }
  }

  /** A row moved to the base of a snapshot that is still offered: no armed
      caller with a live snapshot disagrees, because live snapshots are equal. */
  lemma LiveCallersAgree(s: State, x: nat, row: Intent)
    requires Inv(s) && x in s.procs && Offers(s.procs[x].pc).Some?
    requires Offers(s.procs[x].pc) == LiveVersion(s.shared.intents, s.procs[x].call.identity)
    requires row.state.Pending? && row.base == SnapOf(s.procs[x].pc).value.value.generation
    ensures OthersAccept(s, x, s.procs[x].call.identity, row)
  {
    var sh, q := s.shared, s.procs[x];
    var i := q.call.identity;
    forall y | y in s.procs && Armed(s.procs[y].call, s.procs[y].pc, i) && SnapOf(s.procs[y].pc).Some?
               && Live(sh, s.procs[y].call, SnapOf(s.procs[y].pc).value)
      ensures row.base == SnapOf(s.procs[y].pc).value.value.generation
    {
      var p := s.procs[y];
      assert Ordered(sh, p, q);
      assert ArmedRow(sh, p, i);
      OffererKnows(sh, q.call, q.pc);
      SnapOfOk(sh, p.call, p.pc);
      SnapOfOk(sh, q.call, q.pc);
    }
  }

  lemma OffererKnows(sh: Shared, call: Call, pc: Pc)
    requires PcOk(sh, call, pc) && Offers(pc).Some?
    ensures Known(sh, call.identity, call.resource, call.request)
  {
  }

  /** Arming: the rewritten row is justified, because either it did not move or
      nothing was recorded where it pointed. */
  lemma ArmShared(sh: Shared, sh': Shared, call: Call, pc: Pc, row: Intent)
    requires SharedInv(sh) && CallOk(sh, call) && PcOk(sh, call, pc) && pc.Arming?
    requires row == pc.intent.(base := pc.snap.value.generation, proposed := [CommitDigest(pc.draft.commit)])
    requires WritesIntent(sh, sh', call.identity, Some(pc.version), row)
    ensures RowWritten(sh, sh', call.identity, row) && call.identity in sh.intents
    ensures WriteFacts(sh, sh', call, pc, Uploading(pc.snap, pc.draft), call.identity)
  {
    hide SharedInv, CallOk, PcOk, WritesIntent, RowWritten, WriteFacts;
    ArmedRowIsWritten(sh, sh', call, pc, row);
    ArmFacts(sh, sh', call, pc, row);
  }

  lemma ArmFacts(sh: Shared, sh': Shared, call: Call, pc: Pc, row: Intent)
    requires PcOk(sh, call, pc) && pc.Arming? && call.identity in sh.intents
    requires row == pc.intent.(base := pc.snap.value.generation, proposed := [CommitDigest(pc.draft.commit)])
    requires RowWritten(sh, sh', call.identity, row)
    ensures WriteFacts(sh, sh', call, pc, Uploading(pc.snap, pc.draft), call.identity)
  {
    hide SharedInv, Grows, SnapOk, DraftOk, Rebasable, Live;
    SnapOkStays(sh, sh', call, pc.snap);
    KnownStays(sh, sh', call.identity, call.resource, call.request);
  }

  lemma ArmedRowIsWritten(sh: Shared, sh': Shared, call: Call, pc: Pc, row: Intent)
    requires SharedInv(sh) && CallOk(sh, call) && PcOk(sh, call, pc) && pc.Arming?
    requires row == pc.intent.(base := pc.snap.value.generation, proposed := [CommitDigest(pc.draft.commit)])
    requires WritesIntent(sh, sh', call.identity, Some(pc.version), row)
    ensures RowWritten(sh, sh', call.identity, row) && call.identity in sh.intents
  {
    MovedRowIsJustified(sh, call, pc.intent, pc.version, row.base);
    hide SharedInv, SnapOk, DraftOk, Hist, Head, RecordedAt, Grows;
    SharedRewrites(sh, sh', call.identity, pc.version, row);
  }

  /** A pending row moved to a base its caller may move it to still points right
      below whatever is recorded for its identity. */
  lemma MovedRowIsJustified(sh: Shared, call: Call, intent: Intent, version: nat, base: nat)
    requires SharedInv(sh) && call.identity.Generic? && call.identity in sh.intents
             && sh.intents[call.identity].body.state.Pending?
    requires version == sh.intents[call.identity].version ==> Rebasable(sh, call, sh.intents[call.identity].body, base)
    requires version == sh.intents[call.identity].version
    ensures base <= |Hist(sh, call.resource)|
    ensures forall g: nat :: RecordedAt(sh, call.resource, g, call.identity) ==> base + 1 == g
  {
    hide Hist;
    forall g: nat | RecordedAt(sh, call.resource, g, call.identity) ensures base + 1 == g {
      assert Justified(sh, call.resource, g, call.identity);
    }
  }

  lemma ArmStep(s: State, s': State, x: nat, call: Call, pc: Pc, pc': Pc, row: Intent)
    requires Inv(s) && Moved(s, s', x, call, pc, pc') && pc.Arming?
    requires row == pc.intent.(base := pc.snap.value.generation, proposed := [CommitDigest(pc.draft.commit)])
    requires IntentCas(s.shared, s'.shared, call.identity, pc.version, row, pc', Uploading(pc.snap, pc.draft))
    ensures Inv(s')
  {
    hide Inv, SharedInv, CallOk, PcOk, RowWritten, WriteFacts, OthersAccept;
    MoverOk(s, s', x, call, pc, pc');
    if Put(s.shared.intents, call.identity, Some(pc.version), row).Err? {
      DropStep(s, s', x, call, pc, pc');
    } else {
      ArmShared(s.shared, s'.shared, call, pc, row);
      FailedWrites(s.shared, s'.shared, call, pc, call.identity);
      HeldIsPending(s.shared, call, pc);
      LiveCallersAgree(s, x, row);
      WriteStep(s, s', x, call, pc, pc', call.identity, row);
    }
  }

  lemma HeldIsPending(sh: Shared, call: Call, pc: Pc)
    requires PcOk(sh, call, pc) && (pc.Arming? || pc.Admitting?)
    ensures pc.intent.state.Pending? && (pc.Admitting? ==> pc.intent.base == pc.snap.value.generation)
  {
    hide Held, Rebasable, SnapOk, DraftOk;
  }

  /** A caller may miss the reply of any row write. */
  lemma FailedWrites(sh: Shared, sh': Shared, call: Call, pc: Pc, j: Identity)
    ensures WriteFacts(sh, sh', call, pc, Failed, j)
  {
  }

  lemma AdmitShared(sh: Shared, sh': Shared, call: Call, pc: Pc)
    requires SharedInv(sh) && CallOk(sh, call) && PcOk(sh, call, pc) && pc.Admitting?
    requires WritesIntent(sh, sh', call.identity, Some(pc.version), pc.intent)
    ensures RowWritten(sh, sh', call.identity, pc.intent)
    ensures WriteFacts(sh, sh', call, pc, Admitted, call.identity)
  {
    MovedRowIsJustified(sh, call, pc.intent, pc.version, pc.intent.base);
    hide SharedInv, SnapOk, Hist, Head, RecordedAt, Grows, Rebasable;
    SharedRewrites(sh, sh', call.identity, pc.version, pc.intent);
    AdmittedFacts(sh, sh', call, pc);
  }

  lemma AdmittedFacts(sh: Shared, sh': Shared, call: Call, pc: Pc)
    requires call.Ensure? && Known(sh, call.identity, call.resource, call.request) && Grows(sh, sh')
    ensures WriteFacts(sh, sh', call, pc, Admitted, call.identity)
  {
    hide Grows, Known, ArmedRow;
    KnownStays(sh, sh', call.identity, call.resource, call.request);
  }

  lemma AdmitStep(s: State, s': State, x: nat, call: Call, pc: Pc, pc': Pc)
    requires Inv(s) && Moved(s, s', x, call, pc, pc') && pc.Admitting?
    requires IntentCas(s.shared, s'.shared, call.identity, pc.version, pc.intent, pc', Admitted)
    ensures Inv(s')
  {
    hide Inv, SharedInv, CallOk, PcOk, RowWritten, WriteFacts, OthersAccept;
    MoverOk(s, s', x, call, pc, pc');
    if Put(s.shared.intents, call.identity, Some(pc.version), pc.intent).Err? {
      DropStep(s, s', x, call, pc, pc');
    } else {
      AdmitShared(s.shared, s'.shared, call, pc);
      FailedWrites(s.shared, s'.shared, call, pc, call.identity);
      HeldIsPending(s.shared, call, pc);
      LiveCallersAgree(s, x, pc.intent);
      WriteStep(s, s', x, call, pc, pc', call.identity, pc.intent);
    }
  }

  lemma SyncShared(sh: Shared, sh': Shared, call: Call, pc: Pc, row: Intent)
    requires SharedInv(sh) && CallOk(sh, call) && PcOk(sh, call, pc) && pc.SyncWriting?
    requires row == pc.intent.(proposed := [CommitDigest(pc.draft.commit)])
    requires WritesIntent(sh, sh', pc.draft.companions[pc.k].identity, Some(pc.version), row)
    ensures RowWritten(sh, sh', pc.draft.companions[pc.k].identity, row)
    ensures pc.draft.companions[pc.k].identity in sh.intents
    ensures row.base == sh.intents[pc.draft.companions[pc.k].identity].body.base && row.state.Pending?
  {
    var j := pc.draft.companions[pc.k].identity;
    assert IntentOk(sh, j);
    assert j == call.batch[pc.k + 1].identity;
    forall g: nat | RecordedAt(sh, row.resource, g, j) ensures row.base + 1 == g {
      assert Justified(sh, row.resource, g, j);
    }
    SharedRewrites(sh, sh', j, pc.version, row);
  }

  lemma SyncFacts(sh: Shared, sh': Shared, call: Call, pc: Pc, row: Intent)
    requires PcOk(sh, call, pc) && pc.SyncWriting?
    requires row == pc.intent.(proposed := [CommitDigest(pc.draft.commit)])
    requires RowWritten(sh, sh', pc.draft.companions[pc.k].identity, row)
    ensures WriteFacts(sh, sh', call, pc, Syncing(pc.snap, pc.draft, pc.k + 1), pc.draft.companions[pc.k].identity)
  {
    hide SharedInv, Grows, ArmedPcOk;
    HistStays(sh, sh', call.resource);
    ArmedPcOkStays(sh, sh', call, pc.snap, pc.draft);
  }

  lemma SyncWriteStep(s: State, s': State, x: nat, call: Call, pc: Pc, pc': Pc, row: Intent)
    requires Inv(s) && Moved(s, s', x, call, pc, pc') && pc.SyncWriting? && pc.k < |pc.draft.companions|
    requires row == pc.intent.(proposed := [CommitDigest(pc.draft.commit)])
    requires IntentCas(s.shared, s'.shared, pc.draft.companions[pc.k].identity, pc.version, row, pc',
                       Syncing(pc.snap, pc.draft, pc.k + 1))
    ensures Inv(s')
  {
    hide Inv, SharedInv, CallOk, PcOk, RowWritten, WriteFacts, OthersAccept;
    MoverOk(s, s', x, call, pc, pc');
    var j := pc.draft.companions[pc.k].identity;
    if Put(s.shared.intents, j, Some(pc.version), row).Err? {
      DropStep(s, s', x, call, pc, pc');
    } else {
      SyncShared(s.shared, s'.shared, call, pc, row);
      SyncFacts(s.shared, s'.shared, call, pc, row);
      FailedWrites(s.shared, s'.shared, call, pc, j);
      SameBaseAccepted(s, x, j, row);
      WriteStep(s, s', x, call, pc, pc', j, row);
    }
  }

  /** Rewriting a pending row without moving its base suits every live caller. */
  lemma SameBaseAccepted(s: State, x: nat, j: Identity, row: Intent)
    requires Inv(s) && j in s.shared.intents && row.state.Pending? && row.base == s.shared.intents[j].body.base
    ensures OthersAccept(s, x, j, row)
  {
    forall y | y in s.procs && Armed(s.procs[y].call, s.procs[y].pc, j) && SnapOf(s.procs[y].pc).Some?
               && Live(s.shared, s.procs[y].call, SnapOf(s.procs[y].pc).value)
      ensures row.base == SnapOf(s.procs[y].pc).value.value.generation
    {
      assert ArmedRow(s.shared, s.procs[y], j);
    }
  }

  lemma FinalShared(sh: Shared, sh': Shared, call: Call, pc: Pc, row: Intent)
    requires SharedInv(sh) && PcOk(sh, call, pc) && pc.FinalWriting?
    requires row == pc.intent.(state := Applied(pc.pub.generation, pc.pub.commit, pc.todo[pc.k].result))
    requires WritesIntent(sh, sh', pc.todo[pc.k].identity, Some(pc.version), row)
    ensures RowWritten(sh, sh', pc.todo[pc.k].identity, row)
  {
    var j := pc.todo[pc.k].identity;
    FinalRow(sh, call, pc, row);
    OneRecord(sh, row.resource, pc.pub.generation, j);
    hide SharedInv, PcOk, AppliedOk, Hist, RecordedAt, Grows;
    SharedRewrites(sh, sh', j, pc.version, row);
  }

  /** The row a winner writes names its commit and the outcome owed. */
  lemma FinalRow(sh: Shared, call: Call, pc: Pc, row: Intent)
    requires SharedInv(sh) && PcOk(sh, call, pc) && pc.FinalWriting?
    requires row == pc.intent.(state := Applied(pc.pub.generation, pc.pub.commit, pc.todo[pc.k].result))
    ensures row.identity == pc.todo[pc.k].identity && row.identity.Generic?
    ensures RecordedAt(sh, row.resource, pc.pub.generation, row.identity)
    ensures AppliedOk(sh, row) && Known(sh, row.identity, row.resource, row.request)
    ensures pc.version == sh.intents[row.identity].version ==> row.base <= |Hist(sh, row.resource)|
  {
    RowIsOk(sh, pc.todo[pc.k].identity);
    hide SharedInv, Owes, Hist, Records, RequestAccepted, PublishedFromView;
  }

  lemma OneRecord(sh: Shared, r: string, g: nat, i: Identity)
    requires SharedInv(sh) && RecordedAt(sh, r, g, i) && i.Generic?
    ensures forall at: nat :: RecordedAt(sh, r, at, i) ==> at == g
  {
    hide RefOk, IntentOk, RecordedAt, RequestsAgree;
    assert Justified(sh, r, g, i);
    forall at: nat | RecordedAt(sh, r, at, i) ensures at == g {
      assert Justified(sh, r, at, i);
    }
  }

  lemma FinalFacts(sh: Shared, sh': Shared, call: Call, pc: Pc)
    requires PcOk(sh, call, pc) && pc.FinalWriting? && Grows(sh, sh')
    ensures WriteFacts(sh, sh', call, pc, Finalizing(pc.pub, pc.todo, pc.k + 1), pc.todo[pc.k].identity)
  {
    hide Grows, Answers, TodoOk, Known, ArmedRow;
    AnswersStay(sh, sh', call, pc.pub);
    TodoOkStays(sh, sh', call, pc.pub, pc.todo);
    KnownStays(sh, sh', call.identity, call.resource, call.request);
  }

  /** No live armed caller can hold the row of a recorded identity: its base
      would be the head, above the recorded generation. */
  lemma RecordedIsNotArmed(s: State, r: string, g: nat, j: Identity)
    requires Inv(s) && RecordedAt(s.shared, r, g, j) && j.Generic?
    ensures forall y :: y in s.procs && Armed(s.procs[y].call, s.procs[y].pc, j) && SnapOf(s.procs[y].pc).Some?
                        ==> !Live(s.shared, s.procs[y].call, SnapOf(s.procs[y].pc).value)
  {
    assert Justified(s.shared, r, g, j);
    assert RefOk(s.shared, r);
    forall y | y in s.procs && Armed(s.procs[y].call, s.procs[y].pc, j) && SnapOf(s.procs[y].pc).Some?
      ensures !Live(s.shared, s.procs[y].call, SnapOf(s.procs[y].pc).value)
    {
      assert ArmedRow(s.shared, s.procs[y], j);
      SnapOfOk(s.shared, s.procs[y].call, s.procs[y].pc);
    }
  }

  lemma FinalWriteStep(s: State, s': State, x: nat, call: Call, pc: Pc, pc': Pc, row: Intent)
    requires Inv(s) && Moved(s, s', x, call, pc, pc') && pc.FinalWriting? && pc.k < |pc.todo|
    requires row == pc.intent.(state := Applied(pc.pub.generation, pc.pub.commit, pc.todo[pc.k].result))
    requires s'.shared == s.shared || WritesIntent(s.shared, s'.shared, pc.todo[pc.k].identity, Some(pc.version), row)
    requires pc' == Finalizing(pc.pub, pc.todo, pc.k + 1) || pc' == Failed
    ensures Inv(s')
  {
    hide Inv, SharedInv, CallOk, PcOk, RowWritten, WriteFacts, OthersAccept, ReadFacts, WritesIntent, Grows;
    MoverOk(s, s', x, call, pc, pc');
    var j := pc.todo[pc.k].identity;
    SkipsRow(s.shared, call, pc);
    if s'.shared == s.shared {
      ReadStep(s, s', x, call, pc, pc');
    } else {
      FinalShared(s.shared, s'.shared, call, pc, row);
      RowWrittenGrows(s.shared, s'.shared, j, row);
      FinalFacts(s.shared, s'.shared, call, pc);
      FailedWrites(s.shared, s'.shared, call, pc, j);
      RecordedIsNotArmed(s, call.resource, pc.pub.generation, j);
      NobodyLiveAccepts(s, x, j, row);
      WriteStep(s, s', x, call, pc, pc', j, row);
    }
  }

  lemma SkipsRow(sh: Shared, call: Call, pc: Pc)
    requires PcOk(sh, call, pc) && pc.FinalWriting?
    ensures ReadFacts(sh, call, pc, Finalizing(pc.pub, pc.todo, pc.k + 1)) && ReadFacts(sh, call, pc, Failed)
    ensures pc.todo[pc.k].identity.Generic? && RecordedAt(sh, call.resource, pc.pub.generation, pc.todo[pc.k].identity)
  {
    hide Answers, RecordedAt, Known;
  }

  lemma RowWrittenGrows(sh: Shared, sh': Shared, j: Identity, row: Intent)
    requires RowWritten(sh, sh', j, row)
    ensures Grows(sh, sh')
  {
    hide SharedInv, Grows;
  }

  lemma NobodyLiveAccepts(s: State, x: nat, j: Identity, row: Intent)
    requires forall y :: y in s.procs && Armed(s.procs[y].call, s.procs[y].pc, j) && SnapOf(s.procs[y].pc).Some?
                         ==> !Live(s.shared, s.procs[y].call, SnapOf(s.procs[y].pc).value)
    ensures OthersAccept(s, x, j, row)
  {
    hide Live, Armed;
  }

  // ---- steps that write objects or the ref -----------------------------------------

  lemma UploadStep(s: State, s': State, x: nat, call: Call, pc: Pc, pc': Pc)
    requires Inv(s) && Moved(s, s', x, call, pc, pc') && pc.Uploading?
    requires Uploads(s.shared, s'.shared, CommitDigest(pc.draft.commit))
    requires pc' == Syncing(pc.snap, pc.draft, 0) || pc' == Failed
    ensures Inv(s')
  {
    hide Inv, SharedInv, CallOk, PcOk, Grows, MovedOk, OthersRows;
    MoverOk(s, s', x, call, pc, pc');
    SharedUploads(s.shared, s'.shared, CommitDigest(pc.draft.commit));
    OthersWhenRowsKept(s, s'.shared, x);
    UploadMoves(s, s', x, call, pc, pc');
    Assemble(s, s', x, pc, call, pc');
  }

  lemma UploadMoves(s: State, s': State, x: nat, call: Call, pc: Pc, pc': Pc)
    requires Inv(s) && Moved(s, s', x, call, pc, pc') && pc.Uploading? && Grows(s.shared, s'.shared)
    requires Uploads(s.shared, s'.shared, CommitDigest(pc.draft.commit))
    requires pc' == Syncing(pc.snap, pc.draft, 0) || pc' == Failed
    ensures MovedOk(s, s', x, call, pc, pc')
  {
    hide SharedInv, CallOk, Grows, Ordered, ArmedPcOk, Live;
    var sh, sh' := s.shared, s'.shared;
    assert PcOk(sh, call, pc);
    ArmedPcOkStays(sh, sh', call, pc.snap, pc.draft);
    forall i ensures ArmedRow(sh', Proc(call, pc'), i) {
      assert ArmedRow(sh, s.procs[x], i);
      ArmedRowStays(sh, sh', s.procs[x], i);
    }
  }

  lemma DraftAdmitsOnce(call: Call, snap: Snapshot, draft: Draft)
    requires Prepared(call, snap, draft)
    requires forall j, k :: 0 <= j < k < |call.batch| ==> call.batch[j].identity != call.batch[k].identity
    requires call.batch != [] ==> call.batch[0].identity == call.identity
    ensures AdmitsOnce(draft.commit)
  {
    hide History, SkipOf;
    var c := draft.commit;
    forall a | a in c.admitted && a.identity == c.header.identity ensures c.result == Some(Range(a.first, a.last)) {
      var m :| 0 <= m < |c.admitted| && c.admitted[m] == a;
      assert call.batch[m].identity == call.batch[0].identity;
    }
  }

  /** A prepared commit whose snapshot is live extends the dense chain. */
  lemma DraftExtends(sh: Shared, call: Call, snap: Snapshot, draft: Draft)
    requires RefOk(sh, call.resource) && Prepared(call, snap, draft) && snap == Head(sh, call.resource)
    requires forall j, k :: 0 <= j < k < |call.batch| ==> call.batch[j].identity != call.batch[k].identity
    requires call.batch != [] ==> call.batch[0].identity == call.identity
    ensures History(FinalRef(draft).headCommit) == Hist(sh, call.resource) + [CommitDigest(draft.commit)]
    ensures CommitDigest(draft.commit) in sh.objects ==>
              Dense(sh.objects, call.resource, Hist(sh, call.resource) + [CommitDigest(draft.commit)])
    ensures Restorable(CommitDigest(draft.commit))
    ensures PublishedFromView(CommitDigest(draft.commit), call.identity)
            == Some(Published(draft.outcome, FinalRef(draft).generation, FinalRef(draft).epoch,
                              CommitDigest(draft.commit), FinalRef(draft), draft.commit.admitted))
  {
    var h := Hist(sh, call.resource);
    DraftAdmitsOnce(call, snap, draft);
    if CommitDigest(draft.commit) in sh.objects {
      assert snap.value.headCommit == (if h == [] then None else Some(h[|h| - 1]));
      DenseExtends(sh.objects, call.resource, h, CommitDigest(draft.commit));
    }
  }

  /** Whom a batch commit records. */
  lemma BatchRecords(sh: Shared, call: Call, snap: Snapshot, draft: Draft, i: Identity)
    requires CallOk(sh, call) && Prepared(call, snap, draft) && Records(draft.commit, i)
    ensures i == call.identity || exists k :: 1 <= k < |call.batch| && call.batch[k].identity == i
  {
    var c := draft.commit;
    if c.header.identity != i {
      var a := AdmissionOf(c.admitted, i).value;
      var k :| 0 <= k < |c.admitted| && c.admitted[k] == a;
      assert call.batch[k].identity == i;
    }
  }

  lemma OneRequestPerIdentity(sh: Shared, call: Call, snap: Snapshot, draft: Draft, k: nat)
    requires CallOk(sh, call) && Prepared(call, snap, draft) && k < |call.batch|
    ensures RequestsAgree(draft.commit, call.batch[k].identity, call.batch[k].request)
  {
    hide History, SkipOf;
    var c := draft.commit;
    forall a | a in c.admitted && a.identity == call.batch[k].identity ensures a.request == call.batch[k].request {
      var m :| 0 <= m < |c.admitted| && c.admitted[m] == a;
      assert call.batch[m].identity == call.batch[k].identity;
    }
  }

  /** Who a swap records, who it armed, and what request each row holds. */
  lemma SwapWho(sh: Shared, call: Call, pc: Pc, i: Identity)
    requires CallOk(sh, call) && PcOk(sh, call, pc) && pc.Swapping? && Records(pc.draft.commit, i)
    ensures Armed(call, pc, i) && i in sh.intents && sh.intents[i].body.resource == call.resource
    ensures RequestsAgree(pc.draft.commit, i, sh.intents[i].body.request)
  {
    SwapAnswers(sh, call, pc);
    DraftIsPrepared(call, pc.snap, pc.draft);
    BatchRecords(sh, call, pc.snap, pc.draft, i);
    hide Records, RequestsAgree, PcOk, CallOk, Prepared, DraftOk, RequestAccepted;
    if i != call.identity {
      var k :| 1 <= k < |call.batch| && call.batch[k].identity == i;
      CompanionWho(sh, call, pc, k);
    } else {
      LeaderWho(sh, call, pc);
    }
  }

  lemma CompanionWho(sh: Shared, call: Call, pc: Pc, k: nat)
    requires CallOk(sh, call) && pc.Swapping? && DraftOk(call, pc.snap, pc.draft) && 1 <= k < |call.batch|
    ensures Armed(call, pc, call.batch[k].identity)
            && Known(sh, call.batch[k].identity, call.resource, call.batch[k].request)
    ensures RequestsAgree(pc.draft.commit, call.batch[k].identity, call.batch[k].request)
  {
    DraftIsPrepared(call, pc.snap, pc.draft);
    CompanionIsKnown(sh, call, pc.snap, pc.draft, k - 1);
    OneRequestPerIdentity(sh, call, pc.snap, pc.draft, k);
    hide CallOk, Prepared, RequestsAgree, Known;
  }

  lemma LeaderWho(sh: Shared, call: Call, pc: Pc)
    requires CallOk(sh, call) && pc.Swapping? && DraftOk(call, pc.snap, pc.draft)
    ensures Armed(call, pc, call.identity) && RequestsAgree(pc.draft.commit, call.identity, call.request)
  {
    DraftIsPrepared(call, pc.snap, pc.draft);
    hide CallOk, Prepared, RequestsAgree;
    if call.batch != [] {
      OneRequestPerIdentity(sh, call, pc.snap, pc.draft, 0);
      BatchLeader(sh, call);
    } else {
      LeaderRequest(call, pc.snap, pc.draft);
    }
  }

  lemma BatchLeader(sh: Shared, call: Call)
    requires CallOk(sh, call) && call.Publication? && call.batch != []
    ensures call.batch[0] == Item(call.identity, call.request)
  {
  }

  lemma DraftIsPrepared(call: Call, snap: Snapshot, draft: Draft)
    requires DraftOk(call, snap, draft)
    ensures call.Publication? && Prepared(call, snap, draft)
    ensures call.batch != [] ==> |draft.companions| == |call.batch| - 1
  {
    hide History, SkipOf;
  }

  lemma LeaderRequest(call: Call, snap: Snapshot, draft: Draft)
    requires Prepared(call, snap, draft) && call.batch == []
    ensures RequestsAgree(draft.commit, call.identity, call.request)
  {
  }

  /** Each identity a live swap records has its row pending at the base. */
  lemma SwapRows(s: State, x: nat, i: Identity)
    requires Inv(s) && x in s.procs && s.procs[x].pc.Swapping? && i.Generic?
    requires Live(s.shared, s.procs[x].call, s.procs[x].pc.snap)
    requires Records(s.procs[x].pc.draft.commit, i)
    ensures i in s.shared.intents && s.shared.intents[i].body.resource == s.procs[x].call.resource
    ensures s.shared.intents[i].body.state.Pending?
    ensures s.shared.intents[i].body.base == s.procs[x].pc.snap.value.generation
    ensures RequestsAgree(s.procs[x].pc.draft.commit, i, s.shared.intents[i].body.request)
  {
    SwapWho(s.shared, s.procs[x].call, s.procs[x].pc, i);
    assert ArmedRow(s.shared, s.procs[x], i);
  }

  /** A swap that lands was computed from the live head and extends its chain. */
  lemma SwapChains(sh: Shared, sh': Shared, call: Call, pc: Pc)
    requires RefOk(sh, call.resource) && CallOk(sh, call) && PcOk(sh, call, pc) && pc.Swapping?
    requires WritesRef(sh, sh', call.resource, pc.snap.version, FinalRef(pc.draft))
    ensures pc.snap == Head(sh, call.resource) && Live(sh, call, pc.snap)
    ensures SwapsRef(sh, sh', call.resource, pc.snap.version, FinalRef(pc.draft), [CommitDigest(pc.draft.commit)])
  {
    assert Live(sh, call, pc.snap);
    DraftExtends(sh, call, pc.snap, pc.draft);
  }

  lemma SwapRowsBelow(s: State, x: nat, call: Call, pc: Pc)
    requires Inv(s) && x in s.procs && s.procs[x] == Proc(call, pc) && pc.Swapping?
    requires Live(s.shared, call, pc.snap) && pc.snap.value.generation == |Hist(s.shared, call.resource)|
    ensures RowsBelow(s.shared, call.resource, CommitDigest(pc.draft.commit))
  {
    hide Inv, Records, RequestsAgree, Live, Hist;
    forall i: Identity | i.Generic? && Records(pc.draft.commit, i)
      ensures i in s.shared.intents && s.shared.intents[i].body.resource == call.resource
      ensures s.shared.intents[i].body.state.Pending?
              && s.shared.intents[i].body.base == |Hist(s.shared, call.resource)|
      ensures RequestsAgree(pc.draft.commit, i, s.shared.intents[i].body.request)
    {
      SwapRows(s, x, i);
    }
  }

  lemma SwapShared(s: State, s': State, x: nat, call: Call, pc: Pc, pc': Pc)
    requires Inv(s) && Moved(s, s', x, call, pc, pc') && pc.Swapping?
    requires WritesRef(s.shared, s'.shared, call.resource, pc.snap.version, FinalRef(pc.draft))
    ensures SharedInv(s'.shared) && Grows(s.shared, s'.shared)
    ensures pc.snap == Head(s.shared, call.resource)
    ensures Hist(s'.shared, call.resource) == Hist(s.shared, call.resource) + [CommitDigest(pc.draft.commit)]
  {
    hide Inv, SharedInv, CallOk, PcOk, Grows, SwapsRef, WritesRef, Live, Hist, Records, RequestsAgree;
    var sh, d := s.shared, CommitDigest(pc.draft.commit);
    MoverOk(s, s', x, call, pc, pc');
    RefIsOk(sh, call.resource);
    SwapChains(sh, s'.shared, call, pc);
    SwapRowsBelow(s, x, call, pc);
    SharedSwaps(sh, s'.shared, call.resource, pc.snap.version, FinalRef(pc.draft), [d]);
  }

  /** What the winner of a swap finalizes is recorded by its commit. */
  lemma SwapFacts(sh: Shared, sh': Shared, call: Call, pc: Pc, pub: Published, todo: seq<Companion>)
    requires RefOk(sh, call.resource) && CallOk(sh, call) && PcOk(sh, call, pc) && pc.Swapping?
    requires pc.snap == Head(sh, call.resource) && sh'.intents == sh.intents
    requires Hist(sh', call.resource) == Hist(sh, call.resource) + [CommitDigest(pc.draft.commit)]
    requires pub == Published(pc.draft.outcome, FinalRef(pc.draft).generation, FinalRef(pc.draft).epoch,
                              CommitDigest(pc.draft.commit), FinalRef(pc.draft), pc.draft.commit.admitted)
    requires todo == [Companion(call.identity, pc.draft.outcome)] + pc.draft.companions
    ensures PcOk(sh', call, Finalizing(pub, todo, 0))
  {
    SwapAnswers(sh, call, pc);
    DraftIsPrepared(call, pc.snap, pc.draft);
    DraftExtends(sh, call, pc.snap, pc.draft);
    assert pub.generation == |Hist(sh, call.resource)| + 1;
    var c := pc.draft.commit;
    hide PcOk, CallOk, Prepared, DraftOk, Hist, RefOk, PublishedFromView, Records, RequestAccepted;
    assert Hist(sh', call.resource)[pub.generation - 1] == CommitDigest(c);
    forall k | 0 <= k < |todo|
      ensures todo[k].identity.Generic? && Records(c, todo[k].identity) && Owes(c, todo[k].identity, todo[k].result)
    {
      SwapRecords(sh, call, pc, k);
      SwapOwes(sh, call, pc, k);
    }
    TodoRecorded(sh', call, pub, todo, c);
    FinalizingOk(sh', call, pub, todo, c);
  }

  lemma FinalizingOk(sh: Shared, call: Call, pub: Published, todo: seq<Companion>, c: Commit)
    requires 1 <= pub.generation <= |Hist(sh, call.resource)|
             && Hist(sh, call.resource)[pub.generation - 1] == CommitDigest(c)
    requires Records(c, call.identity) && RequestAccepted(c, call.identity, call.request)
    requires pub.commit == CommitDigest(c) && PublishedFromView(pub.commit, call.identity) == Some(pub)
    requires Known(sh, call.identity, call.resource, call.request) && TodoOk(sh, call, pub, todo)
    ensures PcOk(sh, call, Finalizing(pub, todo, 0))
  {
    hide Hist, Records, RequestAccepted, PublishedFromView, Known, TodoOk;
  }

  /** Whom the winner finalizes, the caller first, its commit records. */
  lemma SwapRecords(sh: Shared, call: Call, pc: Pc, k: nat)
    requires CallOk(sh, call) && pc.Swapping? && DraftOk(call, pc.snap, pc.draft) && k <= |pc.draft.companions|
    ensures var i := ([Companion(call.identity, pc.draft.outcome)] + pc.draft.companions)[k].identity;
            i.Generic? && Records(pc.draft.commit, i)
  {
    var c := pc.draft.commit;
    if k > 0 {
      assert pc.draft.companions[k - 1].identity == call.batch[k].identity;
      assert c.admitted[k] in c.admitted && c.admitted[k].identity == call.batch[k].identity;
    }
  }

  /** And the outcome it writes for each is what its commit owes. */
  lemma SwapOwes(sh: Shared, call: Call, pc: Pc, k: nat)
    requires CallOk(sh, call) && pc.Swapping? && DraftOk(call, pc.snap, pc.draft) && k <= |pc.draft.companions|
    ensures var todo := [Companion(call.identity, pc.draft.outcome)] + pc.draft.companions;
            Owes(pc.draft.commit, todo[k].identity, todo[k].result)
  {
    var c := pc.draft.commit;
    if k == 0 {
      DraftAdmitsOnce(call, pc.snap, pc.draft);
    } else {
      var companion := pc.draft.companions[k - 1];
      assert companion == Companion(c.admitted[k].identity, Range(c.admitted[k].first, c.admitted[k].last));
      assert call.batch[0].identity != call.batch[k].identity;
      forall a | a in c.admitted && a.identity == companion.identity
        ensures companion.result == Range(a.first, a.last)
      {
        var m :| 0 <= m < |c.admitted| && c.admitted[m] == a;
        assert call.batch[m].identity == call.batch[k].identity;
      }
    }
  }

  lemma SwapAnswers(sh: Shared, call: Call, pc: Pc)
    requires PcOk(sh, call, pc) && pc.Swapping?
    ensures Records(pc.draft.commit, call.identity) && RequestAccepted(pc.draft.commit, call.identity, call.request)
    ensures Known(sh, call.identity, call.resource, call.request) && DraftOk(call, pc.snap, pc.draft)
    ensures FinalRef(pc.draft).generation == pc.snap.value.generation + 1
  {
    hide SnapOk, Known, History;
  }

  lemma TodoRecorded(sh: Shared, call: Call, pub: Published, todo: seq<Companion>, c: Commit)
    requires 1 <= pub.generation <= |Hist(sh, call.resource)|
             && Hist(sh, call.resource)[pub.generation - 1] == CommitDigest(c)
    requires forall k :: 0 <= k < |todo| ==>
               todo[k].identity.Generic? && Records(c, todo[k].identity) && Owes(c, todo[k].identity, todo[k].result)
    ensures TodoOk(sh, call, pub, todo)
  {
    hide Hist, Records, Owes;
  }

  lemma SwapStep(s: State, s': State, x: nat, call: Call, pc: Pc, pc': Pc)
    requires Inv(s) && Moved(s, s', x, call, pc, pc') && pc.Swapping?
    requires MoveSwap(call, s.shared, pc.snap, pc.draft, s'.shared, pc')
    ensures Inv(s')
  {
    hide Inv, SharedInv, CallOk, PcOk, Grows, Hist, RefOk, MovedOk, OthersRows;
    if Put(s.shared.refs, call.resource, pc.snap.version, FinalRef(pc.draft)).Err? {
      DropStep(s, s', x, call, pc, pc');
    } else {
      MoverOk(s, s', x, call, pc, pc');
      SwapShared(s, s', x, call, pc, pc');
      OthersWhenRowsKept(s, s'.shared, x);
      if pc'.Finalizing? {
        RefIsOk(s.shared, call.resource);
        SwapFacts(s.shared, s'.shared, call, pc, pc'.pub, pc'.todo);
      }
      Disarmed(s, s', x, call, pc, pc');
      Assemble(s, s', x, pc, call, pc');
    }
  }

  /** A caller past its swap arms nothing. */
  lemma Disarmed(s: State, s': State, x: nat, call: Call, pc: Pc, pc': Pc)
    requires (pc'.Finalizing? && PcOk(s'.shared, call, pc')) || pc'.Failed?
    ensures MovedOk(s, s', x, call, pc, pc')
  {
    hide Known, Answers, TodoOk;
  }

  // ---- the environment ------------------------------------------------------------------

  lemma EnvironmentStep(s: State, s': State)
    requires Inv(s) && s'.procs == s.procs && SharedInv(s'.shared) && Grows(s.shared, s'.shared)
    requires s'.shared.intents == s.shared.intents
    ensures Inv(s')
  {
    hide SharedInv, Grows, CallOk, PcOk;
    var sh, sh' := s.shared, s'.shared;
    forall x | x in s.procs ensures CallOk(sh', s.procs[x].call) && PcOk(sh', s.procs[x].call, s.procs[x].pc) {
      CallOkStays(sh, sh', s.procs[x].call);
      PcOkStays(sh, sh', s.procs[x].call, s.procs[x].pc);
    }
    forall x, i | x in s.procs ensures ArmedRow(sh', s.procs[x], i) {
      ArmedRowStays(sh, sh', s.procs[x], i);
    }
    hide ArmedRow, Ordered;
    forall x, y | x in s.procs && y in s.procs ensures Ordered(sh', s.procs[x], s.procs[y]) {
      OrderedStays(sh, sh', s.procs[x], s.procs[y]);
    }
  }

  lemma RenewStep(s: State, s': State, r: string)
    requires Inv(s) && s'.procs == s.procs && Renews(s.shared, s'.shared, r)
    ensures Inv(s')
  {
    var sh := s.shared;
    assert RefOk(sh, r);
    assert Hist(sh, r) + [] == Hist(sh, r);
    SharedSwaps(sh, s'.shared, r, Some(sh.refs[r].version), s'.shared.refs[r].body, []);
    EnvironmentStep(s, s');
  }

  lemma StableStep(s: State, s': State, r: string, draft: Draft)
    requires Inv(s) && s'.procs == s.procs && CommitsStable(s.shared, s'.shared, r, draft)
    ensures Inv(s')
  {
    var sh := s.shared;
    var d := CommitDigest(draft.commit);
    var mid := sh.(objects := sh.objects + {d});
    var call := Publication(r, draft.commit.header.identity, draft.commit.header.request, []);
    SharedUploads(sh, mid, d);
    EnvironmentStep(s, s.(shared := mid));
    assert RefOk(mid, r);
    assert Head(mid, r) == Head(sh, r);
    DraftExtends(mid, call, Head(mid, r), draft);
    SharedSwaps(mid, s'.shared, r, Head(mid, r).version, FinalRef(draft), [d]);
    EnvironmentStep(s.(shared := mid), s');
  }

  lemma StartStep(s: State, s': State, x: nat, call: Call)
    requires Inv(s) && Starts(s, s', x, call)
    ensures Inv(s')
  {
    assert RefOk(s.shared, call.resource);
    OthersWhenRowsKept(s, s'.shared, x);
    Assemble(s, s', x, Loading, call, Loading);
  }

  /** What the invariant says of the caller that moves. */
  lemma MoverOk(s: State, s': State, x: nat, call: Call, pc: Pc, pc': Pc)
    requires Inv(s) && Moved(s, s', x, call, pc, pc')
    ensures SharedInv(s.shared) && CallOk(s.shared, call) && PcOk(s.shared, call, pc)
  {
    hide Inv, SharedInv, CallOk, PcOk;
    CallerOk(s, x);
  }

  lemma RunLoad(s: State, s': State, x: nat, call: Call, pc': Pc)
    requires Inv(s) && Moved(s, s', x, call, Loading, pc') && s'.shared == s.shared && pc' == AfterLoad(call, s.shared)
    ensures Inv(s')
  {
    hide Inv, Moved, SharedInv, CallOk, PcOk, AfterLoad, ReadFacts;
    MoverOk(s, s', x, call, Loading, pc');
    LoadFacts(s.shared, call);
    ReadStep(s, s', x, call, Loading, pc');
  }

  lemma RunScan(s: State, s': State, x: nat, call: Call, pc': Pc, otherwise: Pc)
    requires Inv(s) && Moved(s, s', x, call, Scanning, pc') && s'.shared == s.shared
             && pc' == AfterScan(call, s.shared, otherwise)
    requires otherwise == if call.Publication? then CreateHead else Creating(call.base)
    ensures Inv(s')
  {
    hide Inv, Moved, SharedInv, CallOk, PcOk, AfterScan, ReadFacts;
    MoverOk(s, s', x, call, Scanning, pc');
    ScanFacts(s.shared, call, otherwise);
    ReadStep(s, s', x, call, Scanning, pc');
  }

  lemma RunCreateHead(s: State, s': State, x: nat, call: Call, pc': Pc)
    requires Inv(s) && Moved(s, s', x, call, CreateHead, pc') && s'.shared == s.shared
    requires pc' == Creating(Head(s.shared, call.resource).value.generation)
    ensures Inv(s')
  {
    hide Inv, Moved, CallOk, Dense;
    MoverOk(s, s', x, call, CreateHead, pc');
    assert RefOk(s.shared, call.resource);
    ReadStep(s, s', x, call, CreateHead, pc');
  }

  lemma RunCached(s: State, s': State, x: nat, call: Call, intent: Intent, version: nat, pc': Pc)
    requires Inv(s) && Moved(s, s', x, call, Cached(intent, version), pc') && s'.shared == s.shared
    requires Move(call, s.shared, Cached(intent, version), s.shared, pc')
    ensures Inv(s')
  {
    hide Inv, Moved, SharedInv, CallOk, AppliedHint, TryCached, Answers, Held;
    MoverOk(s, s', x, call, Cached(intent, version), pc');
    CachedFacts(s.shared, call, intent);
    ReadStep(s, s', x, call, Cached(intent, version), pc');
  }

  lemma RunResolve(s: State, s': State, x: nat, call: Call, intent: Intent, version: nat, pc': Pc)
    requires Inv(s) && Moved(s, s', x, call, Resolving(intent, version), pc') && s'.shared == s.shared
    requires pc' == AfterResolve(call, s.shared, intent, version)
    ensures Inv(s')
  {
    hide Inv, Moved, SharedInv, CallOk, PcOk, AfterResolve, ReadFacts;
    MoverOk(s, s', x, call, Resolving(intent, version), pc');
    ResolveFacts(s.shared, call, intent, version);
    ReadStep(s, s', x, call, Resolving(intent, version), pc');
  }

  lemma RunSnapshot(s: State, s': State, x: nat, call: Call, intent: Intent, version: nat, base: nat, pc': Pc)
    requires Inv(s) && Moved(s, s', x, call, Snapshotting(intent, version, base), pc') && s'.shared == s.shared
    requires Move(call, s.shared, Snapshotting(intent, version, base), s.shared, pc')
    ensures Inv(s')
  {
    hide Inv, Moved, SharedInv, CallOk, PcOk, Prepared, ReadFacts, Head;
    var pc := Snapshotting(intent, version, base);
    if pc' == Loading {
      DropStep(s, s', x, call, pc, pc');
    } else {
      MoverOk(s, s', x, call, pc, pc');
      SnapshotFacts(s.shared, call, intent, version, base, pc'.draft);
      ReadStep(s, s', x, call, pc, pc');
    }
  }

  lemma RunSyncLoad(s: State, s': State, x: nat, call: Call, snap: Snapshot, draft: Draft, k: nat, pc': Pc)
    requires Inv(s) && Moved(s, s', x, call, Syncing(snap, draft, k), pc') && s'.shared == s.shared
    requires pc' == AfterSyncLoad(s.shared, snap, draft, k)
    ensures Inv(s')
  {
    hide Inv, Moved, SharedInv, CallOk, PcOk, AfterSyncLoad, ReadFacts;
    MoverOk(s, s', x, call, Syncing(snap, draft, k), pc');
    SyncLoadFacts(s.shared, call, snap, draft, k);
    ReadStep(s, s', x, call, Syncing(snap, draft, k), pc');
  }

  lemma RunRead(s: State, s': State, x: nat, call: Call, pc: Pc, pc': Pc)
    requires Inv(s) && Moved(s, s', x, call, pc, pc') && Move(call, s.shared, pc, s'.shared, pc')
    requires pc.Loading? || pc.Scanning? || pc.CreateHead? || pc.Cached? || pc.Resolving? || pc.Snapshotting?
             || pc.Syncing?
    ensures Inv(s')
  {
    hide Inv, Moved, AfterLoad, AfterScan, AfterResolve, AfterSyncLoad, TryCached, Prepared, Head;
    match pc
    case Loading => RunLoad(s, s', x, call, pc');
    case Scanning => RunScan(s, s', x, call, pc', if call.Publication? then CreateHead else Creating(call.base));
    case CreateHead => RunCreateHead(s, s', x, call, pc');
    case Cached(intent, version) => RunCached(s, s', x, call, intent, version, pc');
    case Resolving(intent, version) => RunResolve(s, s', x, call, intent, version, pc');
    case Snapshotting(intent, version, base) => RunSnapshot(s, s', x, call, intent, version, base, pc');
    case Syncing(snap, draft, k) => RunSyncLoad(s, s', x, call, snap, draft, k, pc');
  }

  lemma FinalizeFacts(sh: Shared, call: Call, pc: Pc, pc': Pc)
    requires SharedInv(sh) && PcOk(sh, call, pc) && pc.Finalizing? && Move(call, sh, pc, sh, pc')
    ensures ReadFacts(sh, call, pc, pc')
  {
    hide SharedInv, Known, Answers, TodoOk;
    if pc'.FinalWriting? {
      FinalLoadFacts(sh, call, pc.pub, pc.todo, pc.k);
    }
  }

  lemma FinalizeStep(s: State, s': State, x: nat, call: Call, pc: Pc, pc': Pc)
    requires Inv(s) && Moved(s, s', x, call, pc, pc') && Move(call, s.shared, pc, s'.shared, pc') && pc.Finalizing?
    ensures Inv(s')
  {
    hide Inv, Moved, SharedInv, CallOk, PcOk, ReadFacts;
    MoverOk(s, s', x, call, pc, pc');
    FinalizeFacts(s.shared, call, pc, pc');
    ReadStep(s, s', x, call, pc, pc');
  }

  lemma RunArm(s: State, s': State, x: nat, call: Call, pc: Pc, pc': Pc)
    requires Inv(s) && Moved(s, s', x, call, pc, pc') && Move(call, s.shared, pc, s'.shared, pc')
    requires pc.Creating? || pc.Arming? || pc.Admitting?
    ensures Inv(s')
  {
    hide Inv, Moved, MoveCreate, IntentCas;
    match pc
    case Creating(base) => CreateStep(s, s', x, call, base, pc');
    case Arming(intent, version, snap, draft) =>
      ArmStep(s, s', x, call, pc, pc',
              intent.(base := snap.value.generation, proposed := [CommitDigest(draft.commit)]));
    case Admitting(intent, version, snap) => AdmitStep(s, s', x, call, pc, pc');
  }

  lemma RunRewrite(s: State, s': State, x: nat, call: Call, pc: Pc, pc': Pc)
    requires Inv(s) && Moved(s, s', x, call, pc, pc') && Move(call, s.shared, pc, s'.shared, pc')
    requires pc.SyncWriting? || pc.FinalWriting?
    ensures Inv(s')
  {
    hide Inv, Moved, WritesIntent, IntentCas;
    match pc
    case SyncWriting(snap, draft, k, intent, version) =>
      SyncWriteStep(s, s', x, call, pc, pc', intent.(proposed := [CommitDigest(draft.commit)]));
    case FinalWriting(pub, todo, k, intent, version) =>
      FinalWriteStep(s, s', x, call, pc, pc', intent.(state := Applied(pub.generation, pub.commit, todo[k].result)));
  }

  lemma RunSwap(s: State, s': State, x: nat, call: Call, pc: Pc, pc': Pc)
    requires Inv(s) && Moved(s, s', x, call, pc, pc') && Move(call, s.shared, pc, s'.shared, pc')
    requires pc.Uploading? || pc.Swapping?
    ensures Inv(s')
  {
    hide Inv, Moved, MoveSwap;
    if pc.Uploading? {
      UploadStep(s, s', x, call, pc, pc');
    } else {
      SwapStep(s, s', x, call, pc, pc');
    }
  }

  lemma RunStep(s: State, s': State, x: nat)
    requires Inv(s) && Runs(s, s', x)
    ensures Inv(s')
  {
    var call, pc, pc' := s.procs[x].call, s.procs[x].pc, s'.procs[x].pc;
    assert Moved(s, s', x, call, pc, pc');
    CallerOk(s, x);
    NoCachedRescan(s.shared, call, pc);
    hide Inv, Moved, Move, SharedInv, CallOk, PcOk;
    if s'.shared == s.shared && pc' == Failed {
      DropStep(s, s', x, call, pc, pc');
    } else if pc.Finalizing? {
      FinalizeStep(s, s', x, call, pc, pc');
    } else if pc.Creating? || pc.Arming? || pc.Admitting? {
      RunArm(s, s', x, call, pc, pc');
    } else if pc.SyncWriting? || pc.FinalWriting? {
      RunRewrite(s, s', x, call, pc, pc');
    } else if pc.Uploading? || pc.Swapping? {
      RunSwap(s, s', x, call, pc, pc');
    } else {
      RunRead(s, s', x, call, pc, pc');
    }
  }

  lemma InvInit(s: State)
    requires Init(s)
    ensures Inv(s)
  {
    forall r ensures RefOk(s.shared, r) {
      assert Hist(s.shared, r) == [];
    }
  }

  lemma InvNext(s: State, s': State, l: Label)
    requires Inv(s) && Next(s, s', l)
    ensures Inv(s')
  {
    match l
    case Start(x, call) => StartStep(s, s', x, call);
    case Run(x) => RunStep(s, s', x);
    case Renew(r) => RenewStep(s, s', r);
    case Stable(r, draft) => StableStep(s, s', r, draft);
    case Upload(d) =>
      SharedUploads(s.shared, s'.shared, d);
      EnvironmentStep(s, s');
  }

  lemma {:induction false} InvAlways(trace: seq<State>, labels: seq<Label>, k: nat)
    requires Behavior(trace, labels) && k < |trace|
    ensures Inv(trace[k])
  {
    if k == 0 {
      InvInit(trace[0]);
    } else {
      InvAlways(trace, labels, k - 1);
      InvNext(trace[k - 1], trace[k], labels[k - 1]);
    }
  }
}
