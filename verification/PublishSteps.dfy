/** Every step of the publication engine keeps the invariant. */
module PublishSteps {
  import opened Wrappers
  import opened Backend
  import opened Chain
  import opened Publish
  import opened PublishInv

  // ---- effects on the shared state ----------------------------------------------

  lemma SharedUploads(sh: Shared, sh': Shared, d: Digest)
    requires SharedInv(sh) && Uploads(sh, sh', d)
    ensures SharedInv(sh') && Grows(sh, sh')
  {
    assert forall r :: Head(sh', r) == Head(sh, r);
    forall r ensures RefOk(sh', r) {
      assert RefOk(sh, r);
      DenseGrows(sh.objects, sh'.objects, r, Hist(sh, r));
    }
    forall i ensures IntentOk(sh', i) {
      assert IntentOk(sh, i);
    }
    forall r, g: nat, i: Identity | i.Generic? && RecordedAt(sh', r, g, i) ensures Justified(sh', r, g, i) {
      assert RecordedAt(sh, r, g, i);
    }
  }

  /** Rewriting a row: it must keep its binding, stay behind the head, and keep
      pointing at whatever is already recorded for the identity. */
  lemma SharedRewrites(sh: Shared, sh': Shared, j: Identity, version: nat, row: Intent)
    requires SharedInv(sh) && WritesIntent(sh, sh', j, Some(version), row)
    requires row.identity == j && Known(sh, j, row.resource, row.request)
    requires row.base <= |Hist(sh, row.resource)|
    requires row.state.Applied? ==> AppliedOk(sh, row)
    requires j.Generic? ==> forall g :: RecordedAt(sh, row.resource, g, j) ==>
               (if row.state.Applied? then row.state.generation == g else row.base + 1 == g)
    ensures SharedInv(sh') && Grows(sh, sh')
    ensures j in sh.intents && j in sh'.intents
    ensures sh'.intents[j].version > sh.intents[j].version && sh'.intents[j].body == row
    ensures forall i :: i != j ==> (i in sh'.intents <==> i in sh.intents)
    ensures forall i :: i != j && i in sh.intents ==> sh'.intents[i] == sh.intents[i]
  {
    SameRefs(sh, sh');
    hide RefOk, Hist, Head, Records, RequestsAgree, IntentOk, RecordedAt, AppliedOk;
    RowsRewritten(sh, sh', j, version, row);
    hide Justified;
    forall r, g: nat, i: Identity | i.Generic? && RecordedAt(sh', r, g, i) ensures Justified(sh', r, g, i) {
      SameRecords(sh, sh', r, g, i);
      assert Justified(sh, r, g, i);
      RewrittenJustifies(sh, sh', j, row, r, g, i);
    }
  }

  /** A row that is rewritten in place still justifies what is recorded. */
  lemma RewrittenJustifies(sh: Shared, sh': Shared, j: Identity, row: Intent, r: string, g: nat, i: Identity)
    requires RecordedAt(sh, r, g, i) && RecordedAt(sh', r, g, i) && Justified(sh, r, g, i) && i.Generic?
    requires Hist(sh', r) == Hist(sh, r) && Known(sh, j, row.resource, row.request)
    requires j in sh'.intents && sh'.intents[j].body == row
    requires i != j ==> i in sh'.intents && sh'.intents[i] == sh.intents[i]
    requires i == j && RecordedAt(sh, row.resource, g, j) ==>
               (if row.state.Applied? then row.state.generation == g else row.base + 1 == g)
    ensures Justified(sh', r, g, i)
  {
    hide RecordedAt, Hist, RequestsAgree;
  }

  lemma SameRecords(sh: Shared, sh': Shared, r: string, g: nat, i: Identity)
    requires Head(sh', r) == Head(sh, r)
    ensures RecordedAt(sh', r, g, i) <==> RecordedAt(sh, r, g, i)
    ensures Hist(sh', r) == Hist(sh, r)
  {
    hide Head, History, Records;
  }

  lemma RowsRewritten(sh: Shared, sh': Shared, j: Identity, version: nat, row: Intent)
    requires SharedInv(sh) && WritesIntent(sh, sh', j, Some(version), row)
    requires row.identity == j && row.base <= |Hist(sh, row.resource)|
    requires row.state.Applied? ==> AppliedOk(sh, row)
    requires forall r :: Head(sh', r) == Head(sh, r)
    ensures forall i :: IntentOk(sh', i)
  {
    hide RefOk, Head, Records;
    forall i ensures IntentOk(sh', i) {
      assert IntentOk(sh, i);
    }
  }

  lemma SharedCreates(sh: Shared, sh': Shared, j: Identity, row: Intent)
    requires SharedInv(sh) && WritesIntent(sh, sh', j, None, row)
    requires row.identity == j && row.base <= |Hist(sh, row.resource)| && row.state.Pending?
    ensures SharedInv(sh') && Grows(sh, sh')
    ensures j !in sh.intents && j in sh'.intents && sh'.intents[j].body == row
    ensures forall i :: i != j ==> (i in sh'.intents <==> i in sh.intents)
    ensures forall i :: i != j && i in sh.intents ==> sh'.intents[i] == sh.intents[i]
  {
    SameRefs(sh, sh');
    forall i ensures IntentOk(sh', i) {
      assert IntentOk(sh, i);
    }
    forall r, g: nat, i: Identity | i.Generic? && RecordedAt(sh', r, g, i) ensures Justified(sh', r, g, i) {
      assert RecordedAt(sh, r, g, i);
      assert Justified(sh, r, g, i);
    }
  }

  lemma SameRefs(sh: Shared, sh': Shared)
    requires SharedInv(sh) && sh'.refs == sh.refs && sh'.objects == sh.objects
    ensures forall r :: Head(sh', r) == Head(sh, r) && RefOk(sh', r)
  {
    forall r ensures Head(sh', r) == Head(sh, r) && RefOk(sh', r) {
      assert RefOk(sh, r);
    }
  }

  /** A new ref value whose history is the old one plus at most one commit. */
  ghost predicate SwapsRef(sh: Shared, sh': Shared, r: string, expected: Option<nat>, value: RefValue,
                           added: seq<Digest>)
  {
    && WritesRef(sh, sh', r, expected, value)
    && value.name == r && History(value.headCommit) == Hist(sh, r) + added
    && value.generation == |Hist(sh, r)| + |added| && |added| <= 1
    && Dense(sh.objects, r, Hist(sh, r) + added)
    && (forall d :: d in added ==> Restorable(d))
  }

  lemma HeadSwapped(sh: Shared, sh': Shared, r: string, expected: Option<nat>, value: RefValue)
    requires WritesRef(sh, sh', r, expected, value)
    ensures sh' == sh.(refs := sh'.refs) && Head(sh', r).value == value
    ensures VersionNumber(Head(sh', r)) == VersionNumber(Head(sh, r)) + 1
    ensures r in sh'.refs && sh'.refs[r].version >= 1
    ensures forall q :: q != r ==> Head(sh', q) == Head(sh, q) && (q in sh'.refs <==> q in sh.refs)
  {
  }

  lemma SwapGrows(sh: Shared, sh': Shared, r: string, expected: Option<nat>, value: RefValue, added: seq<Digest>)
    requires SharedInv(sh) && SwapsRef(sh, sh', r, expected, value, added)
    ensures Grows(sh, sh')
    ensures forall q :: q != r ==> Head(sh', q) == Head(sh, q)
    ensures Hist(sh', r) == Hist(sh, r) + added
    ensures VersionNumber(Head(sh', r)) > VersionNumber(Head(sh, r))
    ensures RefOk(sh', r)
  {
    HeadSwapped(sh, sh', r, expected, value);
    RefIsOk(sh, r);
    hide SharedInv, WritesRef, Head, History, Dense, VersionNumber, RefOk, Restorable;
    assert Hist(sh', r) == Hist(sh, r) + added;
    SwappedIsOk(sh, sh', r, expected, value, added);
  }

  lemma SwappedIsOk(sh: Shared, sh': Shared, r: string, expected: Option<nat>, value: RefValue, added: seq<Digest>)
    requires RefOk(sh, r) && SwapsRef(sh, sh', r, expected, value, added)
    ensures RefOk(sh', r)
  {
    HeadSwapped(sh, sh', r, expected, value);
    hide WritesRef, Head, History, Dense, Restorable;
    forall k | 0 <= k < |Hist(sh', r)| ensures Restorable(Hist(sh', r)[k]) {
      if k == |Hist(sh, r)| {
        assert Hist(sh', r)[k] == added[0];
      }
    }
  }

  lemma RefIsOk(sh: Shared, r: string)
    requires SharedInv(sh)
    ensures RefOk(sh, r) && Head(sh, r).value.generation == |Hist(sh, r)|
  {
    hide IntentOk, RecordedAt, Dense, Hist;
    assert RefOk(sh, r);
  }

  /** Each generic identity a commit records has its row pending at the head of
      this ref, for the request recorded. */
  ghost predicate RowsBelow(sh: Shared, resource: string, d: Digest) {
    forall i: Identity :: d.CommitDigest? && i.Generic? && Records(d.commit, i) ==>
      && i in sh.intents
      && sh.intents[i].body.resource == resource
      && sh.intents[i].body.state.Pending?
      && sh.intents[i].body.base == |Hist(sh, resource)|
      && RequestsAgree(d.commit, i, sh.intents[i].body.request)
  }

  /** Replacing a ref value keeps the invariant when every identity the added
      commit records has its row pending just below it. */
  lemma SharedSwaps(sh: Shared, sh': Shared, r: string, expected: Option<nat>, value: RefValue, added: seq<Digest>)
    requires SharedInv(sh) && SwapsRef(sh, sh', r, expected, value, added)
    requires forall d :: d in added ==> RowsBelow(sh, r, d)
    ensures SharedInv(sh') && Grows(sh, sh')
    ensures Hist(sh', r) == Hist(sh, r) + added
    ensures VersionNumber(Head(sh', r)) > VersionNumber(Head(sh, r))
  {
    SwapGrows(sh, sh', r, expected, value, added);
    HeadSwapped(sh, sh', r, expected, value);
    hide SwapsRef, Grows, RefOk, IntentOk, RecordedAt, Justified, RowsBelow, Head, Hist;
    forall q ensures RefOk(sh', q) {
      if q != r {
        assert RefOk(sh, q);
        RefOkElsewhere(sh, sh', q);
      }
    }
    forall i ensures IntentOk(sh', i) {
      assert IntentOk(sh, i);
      SwapKeepsIntent(sh, sh', i);
    }
    forall q, g: nat, i: Identity | i.Generic? && RecordedAt(sh', q, g, i) ensures Justified(sh', q, g, i) {
      if RecordedAt(sh, q, g, i) {
        assert Justified(sh, q, g, i);
        JustifiedStays(sh, sh', q, g, i);
      } else {
        NewlyRecorded(sh, sh', r, added, q, g, i);
      }
    }
  }

  lemma RefOkElsewhere(sh: Shared, sh': Shared, q: string)
    requires RefOk(sh, q) && Head(sh', q) == Head(sh, q) && sh'.objects == sh.objects
    requires q in sh'.refs <==> q in sh.refs
    ensures RefOk(sh', q)
  {
    hide Dense, Restorable, History;
  }

  lemma JustifiedStays(sh: Shared, sh': Shared, q: string, g: nat, i: Identity)
    requires RecordedAt(sh, q, g, i) && Justified(sh, q, g, i) && Grows(sh, sh') && sh'.intents == sh.intents
    ensures RecordedAt(sh', q, g, i) && Justified(sh', q, g, i)
  {
    RecordedStays(sh, sh', q, g, i);
    hide Grows, Hist, Records, RequestsAgree;
  }

  /** What a swap newly records it records by the commit it added. */
  lemma NewlyRecorded(sh: Shared, sh': Shared, r: string, added: seq<Digest>, q: string, g: nat, i: Identity)
    requires Hist(sh', r) == Hist(sh, r) + added && |added| <= 1 && sh'.intents == sh.intents
    requires q != r ==> Head(sh', q) == Head(sh, q)
    requires i.Generic? && RecordedAt(sh', q, g, i) && !RecordedAt(sh, q, g, i)
    requires forall d :: d in added ==> RowsBelow(sh, r, d)
    ensures Justified(sh', q, g, i)
  {
    hide Head, History, Records, RequestsAgree;
    assert q == r && g == |Hist(sh, r)| + 1;
    assert Hist(sh', r)[g - 1] == added[0] && RowsBelow(sh, r, added[0]);
  }

  lemma SwapKeepsIntent(sh: Shared, sh': Shared, i: Identity)
    requires IntentOk(sh, i) && Grows(sh, sh') && sh'.intents == sh.intents
    ensures IntentOk(sh', i)
  {
    if i in sh.intents {
      var row := sh.intents[i].body;
      assert Hist(sh, row.resource) <= Hist(sh', row.resource);
      if row.state.Applied? {
        RecordedStays(sh, sh', row.resource, row.state.generation, i);
      }
    }
  }

  // ---- facts about callers that growth preserves -----------------------------------

  lemma HistStays(sh: Shared, sh': Shared, r: string)
    requires Grows(sh, sh')
    ensures Hist(sh, r) <= Hist(sh', r) && sh.objects <= sh'.objects
  {
  }

  lemma CallOkStays(sh: Shared, sh': Shared, call: Call)
    requires CallOk(sh, call) && Grows(sh, sh')
    ensures CallOk(sh', call)
  {
    assert Hist(sh, call.resource) <= Hist(sh', call.resource);
  }

  lemma SnapOkStays(sh: Shared, sh': Shared, call: Call, snap: Snapshot)
    requires SnapOk(sh, call, snap) && Grows(sh, sh')
    ensures SnapOk(sh', call, snap)
    ensures Live(sh', call, snap) ==> Live(sh, call, snap) && Head(sh', call.resource) == Head(sh, call.resource)
  {
    assert Hist(sh, call.resource) <= Hist(sh', call.resource);
    assert VersionNumber(Head(sh, call.resource)) <= VersionNumber(Head(sh', call.resource));
  }

  lemma RebasableStays(sh: Shared, sh': Shared, call: Call, intent: Intent, base: nat)
    requires Rebasable(sh, call, intent, base) && Grows(sh, sh')
    ensures Rebasable(sh', call, intent, base)
  {
    assert Hist(sh, call.resource) <= Hist(sh', call.resource);
    if base != intent.base {
      RecordedStays(sh, sh', call.resource, intent.base + 1, call.identity);
    }
  }

  lemma AnswersStay(sh: Shared, sh': Shared, call: Call, pub: Published)
    requires Answers(sh, call, pub) && Grows(sh, sh')
    ensures Answers(sh', call, pub)
  {
    RecordedStays(sh, sh', call.resource, pub.generation, call.identity);
  }

  lemma TodoOkStays(sh: Shared, sh': Shared, call: Call, pub: Published, todo: seq<Companion>)
    requires TodoOk(sh, call, pub, todo) && Grows(sh, sh')
    ensures TodoOk(sh', call, pub, todo)
  {
    forall k | 0 <= k < |todo| ensures RecordedAt(sh', call.resource, pub.generation, todo[k].identity) {
      RecordedStays(sh, sh', call.resource, pub.generation, todo[k].identity);
    }
  }

  lemma KnownStays(sh: Shared, sh': Shared, i: Identity, resource: string, request: string)
    requires Grows(sh, sh')
    ensures Known(sh, i, resource, request) ==> Known(sh', i, resource, request)
    ensures i in sh.intents && !Known(sh, i, resource, request) ==>
            i in sh'.intents && !Known(sh', i, resource, request)
  {
    hide Hist, Head;
  }

  lemma HeldStays(sh: Shared, sh': Shared, i: Identity, call: Call, request: string, intent: Intent, version: nat)
    requires Held(sh, i, call, request, intent, version) && Grows(sh, sh')
    ensures Held(sh', i, call, request, intent, version)
  {
    hide Hist, Head;
    assert Hist(sh, call.resource) <= Hist(sh', call.resource);
  }

  lemma AppliedHintStays(sh: Shared, sh': Shared, call: Call, intent: Intent)
    requires AppliedHint(sh, call, intent) && Grows(sh, sh')
    ensures AppliedHint(sh', call, intent)
  {
    hide Hist, Head, RequestsAgree;
    RecordedStays(sh, sh', call.resource, intent.state.generation, call.identity);
  }

  lemma ArmedPcOkStays(sh: Shared, sh': Shared, call: Call, snap: Snapshot, draft: Draft)
    requires ArmedPcOk(sh, call, snap, draft) && Grows(sh, sh')
    ensures ArmedPcOk(sh', call, snap, draft)
  {
    hide Grows, SnapOk, DraftOk, Known;
    SnapOkStays(sh, sh', call, snap);
    KnownStays(sh, sh', call.identity, call.resource, call.request);
  }

  /** Callers that hold a row they loaded. */
  lemma HoldersStay(sh: Shared, sh': Shared, call: Call, pc: Pc)
    requires PcOk(sh, call, pc) && Grows(sh, sh') && (pc.Cached? || pc.Resolving? || pc.Snapshotting? || pc.Arming?)
    ensures PcOk(sh', call, pc)
  {
    hide Grows, Held, AppliedHint, SnapOk, DraftOk, Rebasable;
    HeldStays(sh, sh', call.identity, call, call.request, pc.intent, pc.version);
    match pc
    case Cached(intent, version) => AppliedHintStays(sh, sh', call, intent);
    case Resolving(intent, version) =>
    case Snapshotting(intent, version, base) => RebasableStays(sh, sh', call, intent, base);
    case Arming(intent, version, snap, draft) =>
      RebasableStays(sh, sh', call, intent, snap.value.generation);
      SnapOkStays(sh, sh', call, snap);
  }

  /** Callers that have armed rows. */
  lemma ArmedStay(sh: Shared, sh': Shared, call: Call, pc: Pc)
    requires PcOk(sh, call, pc) && Grows(sh, sh') && (pc.Uploading? || pc.Syncing? || pc.Swapping?)
    ensures PcOk(sh', call, pc)
  {
    hide Grows, ArmedPcOk;
    HistStays(sh, sh', call.resource);
    ArmedPcOkStays(sh, sh', call, pc.snap, pc.draft);
  }

  lemma SyncWriterStays(sh: Shared, sh': Shared, call: Call, pc: Pc)
    requires PcOk(sh, call, pc) && Grows(sh, sh') && pc.SyncWriting?
    ensures PcOk(sh', call, pc)
  {
    hide Grows, Held, SnapOk, Prepared, Known;
    HistStays(sh, sh', call.resource);
    ArmedPcOkStays(sh, sh', call, pc.snap, pc.draft);
    HeldStays(sh, sh', pc.draft.companions[pc.k].identity, call, call.batch[pc.k + 1].request, pc.intent, pc.version);
  }

  /** Callers that have an answer. */
  lemma AnsweredStay(sh: Shared, sh': Shared, call: Call, pc: Pc)
    requires PcOk(sh, call, pc) && Grows(sh, sh') && (pc.Finalizing? || pc.Done?)
    ensures PcOk(sh', call, pc)
  {
    hide Grows, Known, Answers, TodoOk;
    AnswersStay(sh, sh', call, pc.pub);
    KnownStays(sh, sh', call.identity, call.resource, call.request);
    if pc.Finalizing? {
      TodoOkStays(sh, sh', call, pc.pub, pc.todo);
    }
  }

  lemma FinalWriterStays(sh: Shared, sh': Shared, call: Call, pc: Pc)
    requires PcOk(sh, call, pc) && Grows(sh, sh') && pc.FinalWriting?
    ensures PcOk(sh', call, pc)
  {
    hide Hist, Head, Answers, TodoOk;
    KnownStays(sh, sh', call.identity, call.resource, call.request);
    KnownStays(sh, sh', pc.todo[pc.k].identity, call.resource, pc.intent.request);
    AnswersStay(sh, sh', call, pc.pub);
    TodoOkStays(sh, sh', call, pc.pub, pc.todo);
  }

  lemma AdmitterStays(sh: Shared, sh': Shared, call: Call, pc: Pc)
    requires PcOk(sh, call, pc) && Grows(sh, sh') && pc.Admitting?
    ensures PcOk(sh', call, pc)
  {
    hide Hist, Head, SnapOk, Rebasable;
    KnownStays(sh, sh', call.identity, call.resource, call.request);
    SnapOkStays(sh, sh', call, pc.snap);
    if pc.version == sh'.intents[call.identity].version {
      RebasableStays(sh, sh', call, sh.intents[call.identity].body, pc.intent.base);
    }
  }

  lemma OtherCallersStay(sh: Shared, sh': Shared, call: Call, pc: Pc)
    requires PcOk(sh, call, pc) && Grows(sh, sh')
    requires pc.Creating? || pc.Admitted? || pc.Conflict? || pc.Loading? || pc.Scanning? || pc.CreateHead? || pc.Failed?
    ensures PcOk(sh', call, pc)
  {
    hide Grows, Known;
    HistStays(sh, sh', call.resource);
    KnownStays(sh, sh', call.identity, call.resource, call.request);
  }

  lemma PcOkStays(sh: Shared, sh': Shared, call: Call, pc: Pc)
    requires PcOk(sh, call, pc) && Grows(sh, sh')
    ensures PcOk(sh', call, pc)
  {
    NoCachedRescan(sh, call, pc);
    hide Grows, PcOk;
    if pc.Cached? || pc.Resolving? || pc.Snapshotting? || pc.Arming? {
      HoldersStay(sh, sh', call, pc);
    } else if pc.Uploading? || pc.Syncing? || pc.Swapping? {
      ArmedStay(sh, sh', call, pc);
    } else if pc.SyncWriting? {
      SyncWriterStays(sh, sh', call, pc);
    } else if pc.Finalizing? || pc.Done? {
      AnsweredStay(sh, sh', call, pc);
    } else if pc.FinalWriting? {
      FinalWriterStays(sh, sh', call, pc);
    } else if pc.Admitting? {
      AdmitterStays(sh, sh', call, pc);
    } else {
      OtherCallersStay(sh, sh', call, pc);
    }
  }

  lemma NoCachedRescan(sh: Shared, call: Call, pc: Pc)
    requires PcOk(sh, call, pc)
    ensures !pc.CachedScan? && !pc.CachedHead?
  {
  }

  lemma SnapOfOk(sh: Shared, call: Call, pc: Pc)
    requires PcOk(sh, call, pc) && SnapOf(pc).Some?
    ensures SnapOk(sh, call, SnapOf(pc).value)
  {
  }

  /** Rows of a caller that did not move survive any growth that leaves those
      rows alone or keeps them at its base. */
  lemma ArmedRowStays(sh: Shared, sh': Shared, p: Proc, i: Identity)
    requires Grows(sh, sh') && PcOk(sh, p.call, p.pc) && ArmedRow(sh, p, i)
    requires Armed(p.call, p.pc, i) && SnapOf(p.pc).Some? && Live(sh, p.call, SnapOf(p.pc).value)
             && i in sh.intents && sh.intents[i].body.state.Pending? && i in sh'.intents
             ==> sh'.intents[i].body.state.Pending? && sh'.intents[i].body.base == SnapOf(p.pc).value.value.generation
    ensures ArmedRow(sh', p, i)
  {
    if Armed(p.call, p.pc, i) && SnapOf(p.pc).Some? {
      SnapOfOk(sh, p.call, p.pc);
      SnapOkStays(sh, sh', p.call, SnapOf(p.pc).value);
    }
  }

  lemma OrderedStays(sh: Shared, sh': Shared, p: Proc, q: Proc)
    requires Grows(sh, sh') && PcOk(sh, p.call, p.pc) && PcOk(sh, q.call, q.pc)
    requires ArmedRow(sh, p, q.call.identity) && Ordered(sh, p, q)
    ensures Ordered(sh', p, q)
  {
    var i := q.call.identity;
    if Armed(p.call, p.pc, i) && SnapOf(p.pc).Some? && Live(sh', p.call, SnapOf(p.pc).value)
       && Offers(q.pc).Some? && SnapOf(q.pc).Some? && Offers(q.pc) == LiveVersion(sh'.intents, i) {
      SnapOfOk(sh, p.call, p.pc);
      SnapOkStays(sh, sh', p.call, SnapOf(p.pc).value);
      assert Known(sh, i, q.call.resource, q.call.request);
      assert p.call.resource == q.call.resource;
    }
  }

  /** What the invariant says of one caller. */
  lemma CallerOk(s: State, x: nat)
    requires Inv(s) && x in s.procs
    ensures SharedInv(s.shared) && CallOk(s.shared, s.procs[x].call) && PcOk(s.shared, s.procs[x].call, s.procs[x].pc)
  {
    hide SharedInv, CallOk, PcOk, ArmedRow, Ordered;
  }

  // ---- putting one step together -----------------------------------------------------

  /** What the caller that moved must bring: its own facts, rows for what it
      newly armed, and a snapshot that is live when it offers a version. */
  ghost predicate MovedOk(s: State, s': State, x: nat, call: Call, pc: Pc, pc': Pc) {
    && PcOk(s'.shared, call, pc')
    && (forall i :: ArmedRow(s'.shared, Proc(call, pc'), i))
    && (Offers(pc').Some? ==> SnapOf(pc') == Some(Head(s'.shared, call.resource)))
    && (forall i :: Armed(call, pc', i) ==>
          || (Armed(call, pc, i) && SnapOf(pc') == SnapOf(pc))
          || (i in s.shared.intents && i in s'.shared.intents
              && s'.shared.intents[i].version > s.shared.intents[i].version))
  }

  ghost predicate OthersRows(s: State, sh': Shared, x: nat) {
    forall y, i :: y in s.procs && y != x ==> ArmedRow(sh', s.procs[y], i)
  }

  lemma Assemble(s: State, s': State, x: nat, pc: Pc, call: Call, pc': Pc)
    requires Inv(s) && SharedInv(s'.shared) && Grows(s.shared, s'.shared)
    requires s'.procs == s.procs[x := Proc(call, pc')]
    requires x in s.procs ==> s.procs[x] == Proc(call, pc)
    requires x !in s.procs ==> CallOk(s.shared, call) && !Armed(call, pc', call.identity) && pc == pc' == Loading
    requires MovedOk(s, s', x, call, pc, pc') && OthersRows(s, s'.shared, x)
    ensures Inv(s')
  {
    hide PcOk, CallOk, ArmedRow, SharedInv, Grows;
    var sh, sh' := s.shared, s'.shared;
    forall y | y in s'.procs ensures CallOk(sh', s'.procs[y].call) && PcOk(sh', s'.procs[y].call, s'.procs[y].pc) {
      CallOkStays(sh, sh', s'.procs[y].call);
      if y != x {
        PcOkStays(sh, sh', s.procs[y].call, s.procs[y].pc);
      }
    }
    forall y, z | y in s'.procs && z in s'.procs ensures Ordered(sh', s'.procs[y], s'.procs[z]) {
      if y != x && z != x {
        OrderedStays(sh, sh', s.procs[y], s.procs[z]);
      } else if y == x && z != x {
        OrderedFromMover(s, s', x, z, pc, call, pc');
      }
    }
  }

  lemma OrderedFromMover(s: State, s': State, x: nat, z: nat, pc: Pc, call: Call, pc': Pc)
    requires Inv(s) && SharedInv(s'.shared) && Grows(s.shared, s'.shared)
    requires s'.procs == s.procs[x := Proc(call, pc')] && z in s.procs && z != x
    requires x in s.procs ==> s.procs[x] == Proc(call, pc)
    requires x !in s.procs ==> pc' == Loading
    requires MovedOk(s, s', x, call, pc, pc')
    ensures Ordered(s'.shared, Proc(call, pc'), s.procs[z])
  {
    hide SharedInv, CallOk, Live;
    var sh, sh' := s.shared, s'.shared;
    var q := s.procs[z];
    var i := q.call.identity;
    if Armed(call, pc', i) && Offers(q.pc).Some? && Offers(q.pc) == LiveVersion(sh'.intents, i) {
      CallerOk(s, z);
      OfferIsBehind(sh, q.call, q.pc);
      hide PcOk, ArmedRow, Grows;
      assert x in s.procs;
      assert Armed(call, pc, i) && SnapOf(pc') == SnapOf(pc);
      OrderedKept(s, sh', x, z, pc');
    }
  }

  /** A version that a caller still offers is not ahead of the row's. */
  lemma OfferIsBehind(sh: Shared, call: Call, pc: Pc)
    requires PcOk(sh, call, pc) && Offers(pc).Some?
    ensures call.identity in sh.intents && Offers(pc).value <= sh.intents[call.identity].version
  {
    hide SnapOk, DraftOk, Rebasable;
  }

  /** Order between two callers survives growth while the first keeps its
      snapshot and what it armed. */
  lemma OrderedKept(s: State, sh': Shared, x: nat, z: nat, pc': Pc)
    requires Inv(s) && Grows(s.shared, sh') && x in s.procs && z in s.procs
    requires Armed(s.procs[x].call, s.procs[x].pc, s.procs[z].call.identity) && SnapOf(pc') == SnapOf(s.procs[x].pc)
    ensures Ordered(sh', Proc(s.procs[x].call, pc'), s.procs[z])
  {
    var p, q := s.procs[x], s.procs[z];
    assert ArmedRow(s.shared, p, q.call.identity) && Ordered(s.shared, p, q);
    CallerOk(s, x);
    CallerOk(s, z);
    hide Inv, PcOk, Grows, ArmedRow, Live;
    OrderedStays(s.shared, sh', p, q);
  }

  /** Rows of the callers that stood still, when no row changed. */
  lemma OthersWhenRowsKept(s: State, sh': Shared, x: nat)
    requires Inv(s) && Grows(s.shared, sh') && sh'.intents == s.shared.intents
    ensures OthersRows(s, sh', x)
  {
    hide SharedInv, Grows, CallOk, PcOk, Ordered;
    forall y, i | y in s.procs && y != x ensures ArmedRow(sh', s.procs[y], i) {
      assert ArmedRow(s.shared, s.procs[y], i);
      ArmedRowStays(s.shared, sh', s.procs[y], i);
    }
  }

  /** Rows of the callers that stood still, when row j was rewritten to a value
      that every live armed caller accepts. */
  lemma OthersWhenRewritten(s: State, sh': Shared, x: nat, j: Identity, row: Intent)
    requires Inv(s) && Grows(s.shared, sh')
    requires j in sh'.intents && sh'.intents[j].body == row
    requires forall i :: i != j && i in s.shared.intents && i in sh'.intents ==> sh'.intents[i] == s.shared.intents[i]
    requires forall y ::
               && y in s.procs && y != x && Armed(s.procs[y].call, s.procs[y].pc, j) && SnapOf(s.procs[y].pc).Some?
               && Live(s.shared, s.procs[y].call, SnapOf(s.procs[y].pc).value)
               ==> row.state.Pending? && row.base == SnapOf(s.procs[y].pc).value.value.generation
    ensures OthersRows(s, sh', x)
  {
    hide SharedInv, Grows, CallOk, PcOk, Ordered, Live;
    forall y, i | y in s.procs && y != x ensures ArmedRow(sh', s.procs[y], i) {
      assert ArmedRow(s.shared, s.procs[y], i);
      ArmedRowStays(s.shared, sh', s.procs[y], i);
    }
  }
}
