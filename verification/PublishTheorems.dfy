/** What the publication engine promises over whole runs. */
module PublishTheorems {
  import opened Wrappers
  import opened Chain
  import opened Publish
  import opened PublishInv
  import opened PublishSteps
  import opened PublishProof

  // ---- exactly once ---------------------------------------------------------------

  /** In every state of every run, a generic identity is recorded, as header
      identity or as an admission, by at most one commit across all refs. */
  lemma ExactlyOnce(trace: seq<State>, labels: seq<Label>, k: nat, i: Identity, r: string, g: nat, r': string, g': nat)
    requires Behavior(trace, labels) && k < |trace| && i.Generic?
    requires RecordedAt(trace[k].shared, r, g, i) && RecordedAt(trace[k].shared, r', g', i)
    ensures r == r' && g == g'
  {
    InvAlways(trace, labels, k);
    RecordedOnce(trace[k].shared, r, g, r', g', i);
  }

  lemma RecordedOnce(sh: Shared, r: string, g: nat, r': string, g': nat, i: Identity)
    requires SharedInv(sh) && i.Generic? && RecordedAt(sh, r, g, i) && RecordedAt(sh, r', g', i)
    ensures r == r' && g == g'
  {
    hide RefOk, IntentOk, RecordedAt, RequestsAgree;
    assert Justified(sh, r, g, i);
    assert Justified(sh, r', g', i);
  }

  // ---- history ------------------------------------------------------------------------

  lemma StepExtendsHistory(s: State, s': State, l: Label, r: string)
    requires Inv(s) && Next(s, s', l)
    ensures Hist(s.shared, r) <= Hist(s'.shared, r)
  {
    var sh, sh' := s.shared, s'.shared;
    match l
    case Start(_, _) =>
    case Upload(_) => assert Head(sh', r) == Head(sh, r);
    case Renew(q) =>
      if q != r { assert Head(sh', r) == Head(sh, r); }
    case Stable(q, draft) =>
      if q != r { assert Head(sh', r) == Head(sh, r); }
    case Run(x) =>
      var call, pc := s.procs[x].call, s.procs[x].pc;
      if sh'.refs == sh.refs {
        assert Head(sh', r) == Head(sh, r);
      } else {
        RefsMoveOnlyBySwap(s, s', x);
        assert RefOk(sh, call.resource);
        assert CallOk(sh, call) && PcOk(sh, call, pc);
        SwapChains(sh, sh', call, pc);
        SwapGrows(sh, sh', call.resource, pc.snap.version, FinalRef(pc.draft), [CommitDigest(pc.draft.commit)]);
        if call.resource != r { assert Head(sh', r) == Head(sh, r); }
      }
  }

  lemma RefsMoveOnlyBySwap(s: State, s': State, x: nat)
    requires Runs(s, s', x) && s'.shared.refs != s.shared.refs
    ensures s.procs[x].pc.Swapping?
    ensures WritesRef(s.shared, s'.shared, s.procs[x].call.resource, s.procs[x].pc.snap.version,
                      FinalRef(s.procs[x].pc.draft))
  {
  }

  /** Commits are never lost or reordered: at any later point of a run a ref's
      history extends what it was. */
  lemma {:induction false} HistoryGrows(trace: seq<State>, labels: seq<Label>, j: nat, k: nat, r: string)
    requires Behavior(trace, labels) && j <= k < |trace|
    ensures Hist(trace[j].shared, r) <= Hist(trace[k].shared, r)
  {
    hide Inv, Next, Hist, Behavior;
    if j < k {
      HistoryGrows(trace, labels, j, k - 1, r);
      InvAlways(trace, labels, k - 1);
      BehaviorStep(trace, labels, k - 1);
      StepExtendsHistory(trace[k - 1], trace[k], labels[k - 1], r);
    }
  }

  lemma BehaviorStep(trace: seq<State>, labels: seq<Label>, k: nat)
    requires Behavior(trace, labels) && k + 1 < |trace|
    ensures k < |labels| && Next(trace[k], trace[k + 1], labels[k])
  {
    hide Next, Init;
  }

  // ---- retry transparency ------------------------------------------------------------------

  lemma {:induction false} DoneStaysDone(trace: seq<State>, labels: seq<Label>, j: nat, k: nat, x: nat)
    requires Behavior(trace, labels) && j <= k < |trace| && x in trace[j].procs && Terminal(trace[j].procs[x].pc)
    ensures x in trace[k].procs && trace[k].procs[x] == trace[j].procs[x]
    decreases k
  {
    hide Next, Behavior, Terminal;
    if j < k {
      DoneStaysDone(trace, labels, j, k - 1, x);
      BehaviorStep(trace, labels, k - 1);
      EndsStand(trace[k - 1], trace[k], labels[k - 1], x);
    }
  }

  lemma EndsStand(s: State, s': State, l: Label, x: nat)
    requires Next(s, s', l) && x in s.procs && Terminal(s.procs[x].pc)
    ensures x in s'.procs && s'.procs[x] == s.procs[x]
  {
    hide Move, MayStart, Renews, CommitsStable;
  }

  /** Whatever path answered, and whenever: two calls under one identity that both
      return a publication name the same ref and return the same outcome,
      generation, epoch, commit and ref value. */
  lemma RetryTransparency(trace: seq<State>, labels: seq<Label>, j: nat, k: nat, x: nat, y: nat)
    requires Behavior(trace, labels) && j <= k < |trace|
    requires x in trace[j].procs && trace[j].procs[x].pc.Done?
    requires y in trace[k].procs && trace[k].procs[y].pc.Done?
    requires trace[j].procs[x].call.identity == trace[k].procs[y].call.identity
    ensures trace[j].procs[x].call.resource == trace[k].procs[y].call.resource
    ensures trace[j].procs[x].pc.pub == trace[k].procs[y].pc.pub
  {
    InvAlways(trace, labels, k);
    DoneStaysDone(trace, labels, j, k, x);
    hide Behavior, Inv, SharedInv, Answers;
    var s := trace[k];
    DoneAnswers(s, x);
    DoneAnswers(s, y);
    SameAnswers(s.shared, s.procs[x].call, s.procs[x].pc.pub, s.procs[y].call, s.procs[y].pc.pub);
  }

  /** What the invariant says of the callers that ended. */
  lemma EndedFacts(sh: Shared, call: Call, pc: Pc)
    requires PcOk(sh, call, pc)
    ensures pc.Done? ==> Answers(sh, call, pc.pub)
    ensures pc.Admitted? ==> call.Ensure? && Known(sh, call.identity, call.resource, call.request)
    ensures pc.Conflict? ==> call.identity in sh.intents && !Known(sh, call.identity, call.resource, call.request)
  {
    hide Answers, Known;
  }

  lemma DoneAnswers(s: State, x: nat)
    requires Inv(s) && x in s.procs && s.procs[x].pc.Done?
    ensures SharedInv(s.shared) && Answers(s.shared, s.procs[x].call, s.procs[x].pc.pub)
            && s.procs[x].call.identity.Generic?
  {
    hide Inv, SharedInv, Answers, PcOk;
    CallerOk(s, x);
    EndedFacts(s.shared, s.procs[x].call, s.procs[x].pc);
  }

  lemma SameAnswers(sh: Shared, call: Call, pub: Published, call': Call, pub': Published)
    requires SharedInv(sh) && call.identity == call'.identity && call.identity.Generic?
    requires Answers(sh, call, pub) && Answers(sh, call', pub')
    ensures call.resource == call'.resource && pub == pub'
  {
    hide SharedInv, RecordedAt, PublishedFromView, RequestAccepted;
    RecordedOnce(sh, call.resource, pub.generation, call'.resource, pub'.generation, call.identity);
  }

  /** A returned publication is the commit live history holds at its generation,
      it records the identity, and its value is that commit's ref value. */
  lemma DoneIsRecorded(trace: seq<State>, labels: seq<Label>, k: nat, x: nat)
    requires Behavior(trace, labels) && k < |trace| && x in trace[k].procs && trace[k].procs[x].pc.Done?
    ensures var p := trace[k].procs[x];
            var h := Hist(trace[k].shared, p.call.resource);
            && 1 <= p.pc.pub.generation <= |h|
            && h[p.pc.pub.generation - 1] == p.pc.pub.commit
            && p.pc.pub.commit.CommitDigest?
            && Records(p.pc.pub.commit.commit, p.call.identity)
            && p.pc.pub.commit.commit.header.generation == p.pc.pub.generation
            && p.pc.pub.commit.commit.header.epoch == p.pc.pub.epoch
            && (var c, v := p.pc.pub.commit.commit, p.pc.pub.value;
                && v.headCommit == Some(p.pc.pub.commit)
                && v.target == (if c.targetFollowsCommit then Some(p.pc.pub.commit) else c.refState.target)
                && v == c.refState.(headCommit := v.headCommit, target := v.target))
  {
    InvAlways(trace, labels, k);
    hide Behavior, Inv, SharedInv, Hist, Records, RequestAccepted, OutcomeFromView;
    var s, p := trace[k], trace[k].procs[x];
    DoneAnswers(s, x);
    RecordedIsRestorable(s.shared, p.call.resource, p.pc.pub.generation, p.call.identity);
  }

  /** Which outcome an answer carries: the commit's own result under its header
      identity, and the range admitted under any identity of the batch, the leader's
      too. */
  lemma DoneOutcome(trace: seq<State>, labels: seq<Label>, k: nat, x: nat)
    requires Behavior(trace, labels) && k < |trace| && x in trace[k].procs && trace[k].procs[x].pc.Done?
    ensures var i, pub := trace[k].procs[x].call.identity, trace[k].procs[x].pc.pub;
            && pub.commit.CommitDigest? && pub.admitted == pub.commit.commit.admitted
            && (pub.commit.commit.header.identity == i ==> pub.commit.commit.result == Some(pub.outcome))
            && (pub.commit.commit.header.identity != i ==> exists a :: a in pub.admitted && a.identity == i)
            && (forall a :: a in pub.admitted && a.identity == i ==> pub.outcome == Range(a.first, a.last))
  {
    InvAlways(trace, labels, k);
    hide Behavior, Inv, SharedInv, Answers;
    var s, p := trace[k], trace[k].procs[x];
    DoneAnswers(s, x);
    AnswersOwe(s.shared, p.call, p.pc.pub);
    AnswerIsRecorded(s.shared, p.call, p.pc.pub);
  }

  lemma AnswerIsRecorded(sh: Shared, call: Call, pub: Published)
    requires Answers(sh, call, pub)
    ensures pub.commit.CommitDigest? && pub.admitted == pub.commit.commit.admitted
    ensures Records(pub.commit.commit, call.identity)
  {
    hide Hist, Records, RequestAccepted, OutcomeFromView;
  }

  /** The result kept in a row marked applied is the outcome of each answer given
      under its identity, whichever of the two came first. */
  lemma AppliedResultAnswers(trace: seq<State>, labels: seq<Label>, j: nat, k: nat, x: nat, i: Identity)
    requires Behavior(trace, labels) && j < |trace| && k < |trace|
    requires x in trace[j].procs && trace[j].procs[x].pc.Done? && trace[j].procs[x].call.identity == i
    requires i in trace[k].shared.intents && trace[k].shared.intents[i].body.state.Applied?
    ensures var pub := trace[j].procs[x].pc.pub;
            trace[k].shared.intents[i].body.state == Applied(pub.generation, pub.commit, pub.outcome)
  {
    hide Behavior, Inv, SharedInv, Answers, AppliedOk;
    var m, row := if j < k then k else j, trace[k].shared.intents[i].body;
    InvAlways(trace, labels, k);
    AppliedOwes(trace[k], i);
    HistoryGrows(trace, labels, k, m, row.resource);
    DoneStaysDone(trace, labels, j, m, x);
    InvAlways(trace, labels, m);
    DoneAnswers(trace[m], x);
    AppliedAgrees(trace[k].shared, trace[m].shared, trace[m].procs[x].call, trace[m].procs[x].pc.pub, row);
  }

  lemma AppliedOwes(s: State, i: Identity)
    requires Inv(s) && i in s.shared.intents && s.shared.intents[i].body.state.Applied?
    ensures AppliedOk(s.shared, s.shared.intents[i].body) && s.shared.intents[i].body.identity == i
  {
    hide SharedInv, AppliedOk, PcOk, CallOk, ArmedRow, Ordered, Hist;
    RowIsOk(s.shared, i);
  }

  lemma AppliedAgrees(sh: Shared, sh': Shared, call: Call, pub: Published, row: Intent)
    requires row.state.Applied? && AppliedOk(sh, row) && Hist(sh, row.resource) <= Hist(sh', row.resource)
    requires SharedInv(sh') && Answers(sh', call, pub) && call.identity == row.identity && row.identity.Generic?
    ensures row.state == Applied(pub.generation, pub.commit, pub.outcome)
  {
    AnswersOwe(sh', call, pub);
    AnswerIsRecorded(sh', call, pub);
    hide SharedInv, Hist, PublishedFromView, RequestAccepted;
    RecordedOnce(sh', row.resource, row.state.generation, call.resource, pub.generation, row.identity);
  }

  /** While an identity is committed at g, a call with its request that loads the
      row is answered with that very publication: through the applied row, through
      the one generation a pending row points at, or through the chain scan. */
  lemma RetryAnswers(sh: Shared, call: Call, g: nat)
    requires SharedInv(sh) && CallOk(sh, call) && RecordedAt(sh, call.resource, g, call.identity)
    requires Known(sh, call.identity, call.resource, call.request)
    ensures var original := PublishedFromView(Hist(sh, call.resource)[g - 1], call.identity);
            && original.Some? && original.value.generation == g
            && Owes(Hist(sh, call.resource)[g - 1].commit, call.identity, original.value.outcome)
            && (match AfterLoad(call, sh)
                case Cached(intent, _) =>
                  intent.state.Applied? && TryCached(sh, call, intent.state.generation, intent.state.commit) == original
                case Resolving(intent, version) =>
                  AfterResolve(call, sh, intent, version)
                  == Finalizing(original.value, [Companion(call.identity, original.value.outcome)], 0)
                case _ => false)
            && Recover(sh, call) == Recovered(original.value)
  {
    OriginalReads(sh, call, g);
    FindsOriginal(sh, call, g);
    hide SharedInv, CallOk, RecordedAt, Justified, Hist, AfterResolve, TryCached, PublishedFromView, RequestAccepted,
        FindRecorded, Owes;
    var row := sh.intents[call.identity];
    if row.body.state.Applied? {
      RetryCached(sh, call, g, row.body);
    } else {
      RetryPending(sh, call, g, row.body, row.version);
    }
  }

  lemma RetryCached(sh: Shared, call: Call, g: nat, row: Intent)
    requires SharedInv(sh) && RecordedAt(sh, call.resource, g, call.identity)
             && Justified(sh, call.resource, g, call.identity)
    requires row == sh.intents[call.identity].body && row.state.Applied?
    requires RequestAccepted(Hist(sh, call.resource)[g - 1].commit, call.identity, call.request)
    ensures TryCached(sh, call, row.state.generation, row.state.commit)
            == PublishedFromView(Hist(sh, call.resource)[g - 1], call.identity)
  {
    RefIsOk(sh, call.resource);
    RowIsOk(sh, call.identity);
    RecordedIsRestorable(sh, call.resource, g, call.identity);
    hide SharedInv, RefOk, Hist, Head, Records, RequestAccepted, RequestsAgree, PublishedFromView;
  }

  lemma RetryPending(sh: Shared, call: Call, g: nat, row: Intent, version: nat)
    requires SharedInv(sh) && RecordedAt(sh, call.resource, g, call.identity)
             && Justified(sh, call.resource, g, call.identity)
    requires row == sh.intents[call.identity].body && row.state.Pending?
    requires RequestAccepted(Hist(sh, call.resource)[g - 1].commit, call.identity, call.request)
    requires PublishedFromView(Hist(sh, call.resource)[g - 1], call.identity).Some?
    ensures var p := PublishedFromView(Hist(sh, call.resource)[g - 1], call.identity).value;
            AfterResolve(call, sh, row, version) == Finalizing(p, [Companion(call.identity, p.outcome)], 0)
  {
    RefIsOk(sh, call.resource);
    hide SharedInv, RefOk, Hist, Head, Records, RequestAccepted, RequestsAgree, PublishedFromView;
  }

  /** The commit an identity is recorded at answers for its own request, and its
      row points there. */
  lemma OriginalReads(sh: Shared, call: Call, g: nat)
    requires SharedInv(sh) && CallOk(sh, call) && RecordedAt(sh, call.resource, g, call.identity)
    requires Known(sh, call.identity, call.resource, call.request)
    ensures var p := PublishedFromView(Hist(sh, call.resource)[g - 1], call.identity);
            && p.Some? && p.value.generation == g
            && Owes(Hist(sh, call.resource)[g - 1].commit, call.identity, p.value.outcome)
    ensures RequestAccepted(Hist(sh, call.resource)[g - 1].commit, call.identity, call.request)
    ensures Justified(sh, call.resource, g, call.identity)
  {
    hide SharedInv, Hist, Records, RequestAccepted, OutcomeFromView, RestoredRef, Owes;
    RecordedIsRestorable(sh, call.resource, g, call.identity);
    AgreedRow(sh, call, g, call.request);
    RecordedAnswers(sh, call, g);
    AnswersOwe(sh, call, PublishedFromView(Hist(sh, call.resource)[g - 1], call.identity).value);
  }

  lemma FindsOriginal(sh: Shared, call: Call, g: nat)
    requires SharedInv(sh) && RecordedAt(sh, call.resource, g, call.identity) && call.identity.Generic?
    ensures FindRecorded(Hist(sh, call.resource), call.identity) == Some(Hist(sh, call.resource)[g - 1])
  {
    hide SharedInv, Hist, Records, FindRecorded;
    var h := Hist(sh, call.resource);
    assert h[g - 1].CommitDigest? && Records(h[g - 1].commit, call.identity);
    var d := FindRecorded(h, call.identity).value;
    var k :| 0 <= k < |h| && h[k] == d;
    assert RecordedAt(sh, call.resource, k + 1, call.identity);
    RecordedOnce(sh, call.resource, g, call.resource, k + 1, call.identity);
  }

  // ---- reading any commit ---------------------------------------------------------------

  /** The first admission of an identity stands at k. */
  predicate FirstAdmission(admitted: seq<Admission>, i: Identity, k: nat) {
    k < |admitted| && admitted[k].identity == i && forall j :: 0 <= j < k ==> admitted[j].identity != i
  }

  lemma {:induction false} AdmissionIsFirst(admitted: seq<Admission>, i: Identity, k: nat)
    requires FirstAdmission(admitted, i, k)
    ensures AdmissionOf(admitted, i) == Some(admitted[k])
  {
    if k > 0 {
      AdmissionIsFirst(admitted[1..], i, k - 1);
    }
  }

  lemma {:induction false} AdmissionStands(admitted: seq<Admission>, i: Identity) returns (k: nat)
    requires AdmissionOf(admitted, i).Some?
    ensures FirstAdmission(admitted, i, k) && AdmissionOf(admitted, i) == Some(admitted[k])
  {
    k := 0;
    if admitted[0].identity != i {
      k := AdmissionStands(admitted[1..], i);
      k := k + 1;
    }
  }

  /** What a commit says of an identity: its result under its header identity, if
      it has one, and otherwise the range of the identity's first admission. */
  ghost predicate SaysOf(c: Commit, i: Identity, outcome: Outcome) {
    if c.header.identity == i && c.result.Some? then c.result == Some(outcome)
    else exists k: nat :: FirstAdmission(c.admitted, i, k) && outcome == Range(c.admitted[k].first, c.admitted[k].last)
  }

  lemma ViewSays(c: Commit, i: Identity, outcome: Outcome)
    ensures OutcomeFromView(c, i) == Some(outcome) <==> SaysOf(c, i, outcome)
  {
    if !(c.header.identity == i && c.result.Some?) {
      if AdmissionOf(c.admitted, i).Some? {
        var k := AdmissionStands(c.admitted, i);
      }
      forall k: nat | FirstAdmission(c.admitted, i, k) ensures AdmissionOf(c.admitted, i) == Some(c.admitted[k]) {
        AdmissionIsFirst(c.admitted, i, k);
      }
    }
  }

  /** Any commit: a publication is read from it exactly when it says something of
      the identity and its ref value is the one its header names. */
  lemma PublishedFromAnyCommit(d: Digest, i: Identity, p: Published)
    requires d.CommitDigest?
    ensures var c, v := d.commit, d.commit.refState;
            PublishedFromView(d, i) == Some(p)
            <==> && SaysOf(c, i, p.outcome)
                 && v.name == c.header.resource && v.generation == c.header.generation == p.generation
                 && v.epoch == c.header.epoch == p.epoch && p.commit == d && p.admitted == c.admitted
                 && p.value == v.(headCommit := Some(d), target := if c.targetFollowsCommit then Some(d) else v.target)
  {
    ViewSays(d.commit, i, p.outcome);
    hide SaysOf;
    if OutcomeFromView(d.commit, i).Some? {
      ViewSays(d.commit, i, OutcomeFromView(d.commit, i).value);
    }
    hide OutcomeFromView;
  }

  /** Any state, any row: what an applied row names is only a hint. It is answered
      exactly from the commit that live history holds there, if that is the commit
      named, and accepts the request and records the identity. */
  lemma CachedOnAnyState(sh: Shared, call: Call, generation: nat, commit: Digest, p: Published)
    ensures var h, i := Hist(sh, call.resource), call.identity;
            TryCached(sh, call, generation, commit) == Some(p)
            <==> && 1 <= generation <= Head(sh, call.resource).value.generation && generation <= |h|
                 && commit.CommitDigest? && h[generation - 1] == commit
                 && commit.commit.header.generation == generation && commit.commit.header.resource == call.resource
                 && (commit.commit.header.request == call.request
                     || exists a :: a in commit.commit.admitted && a.identity == i && a.request == call.request)
                 && (commit.commit.header.identity == i || exists a :: a in commit.commit.admitted && a.identity == i)
                 && PublishedFromView(commit, i) == Some(p)
  {
    hide Hist, Head, PublishedFromView, AdmissionOf;
  }

  // ---- a different request ------------------------------------------------------------------

  /** The row of this identity is bound to another request or another ref. */
  predicate BoundElsewhere(sh: Shared, call: Call) {
    call.identity in sh.intents && !Known(sh, call.identity, call.resource, call.request)
  }

  /** Once its identity is bound elsewhere, no step of a caller changes anything
      shared. */
  lemma MismatchIsInert(trace: seq<State>, labels: seq<Label>, k: nat, x: nat)
    requires Behavior(trace, labels) && k < |labels| && labels[k] == Run(x) && x in trace[k].procs
    requires BoundElsewhere(trace[k].shared, trace[k].procs[x].call)
    ensures trace[k + 1].shared == trace[k].shared
  {
    InvAlways(trace, labels, k);
    var s, s' := trace[k], trace[k + 1];
    assert Next(s, s', labels[k]);
    assert PcOk(s.shared, s.procs[x].call, s.procs[x].pc);
  }

  /** A conflict is only ever reported for an identity bound elsewhere. */
  lemma ConflictIsReal(trace: seq<State>, labels: seq<Label>, k: nat, x: nat)
    requires Behavior(trace, labels) && k < |trace| && x in trace[k].procs && trace[k].procs[x].pc.Conflict?
    ensures BoundElsewhere(trace[k].shared, trace[k].procs[x].call)
  {
    InvAlways(trace, labels, k);
    hide Behavior, Inv, SharedInv, CallOk, PcOk, Known;
    CallerOk(trace[k], x);
    EndedFacts(trace[k].shared, trace[k].procs[x].call, trace[k].procs[x].pc);
  }

  /** The request test of the engine, on a commit that records an identity for
      its own request: it accepts that request and, when the identity rode along
      in another leader's batch, also the leader's. */
  lemma AcceptedRequests(c: Commit, i: Identity, own: string, supplied: string)
    requires Records(c, i) && RequestsAgree(c, i, own)
    ensures RequestAccepted(c, i, supplied)
            <==> supplied == own || (c.header.identity != i && supplied == c.header.request)
  {
    AgreedIsAccepted(c, i, own);
  }

  /** How a caller whose identity is bound elsewhere may end: with the conflict, or
      failed, or, only if it supplied the request of the batch leader its identity
      rode with, with an answer; it is never admitted. */
  lemma MismatchAnsweredOnlyForLeaderRequest(trace: seq<State>, labels: seq<Label>, k: nat, x: nat)
    requires Behavior(trace, labels) && k < |trace| && x in trace[k].procs && Terminal(trace[k].procs[x].pc)
    requires BoundElsewhere(trace[k].shared, trace[k].procs[x].call)
    ensures !trace[k].procs[x].pc.Admitted?
    ensures var p := trace[k].procs[x];
            p.pc.Done? ==>
              && p.pc.pub.commit.CommitDigest?
              && p.pc.pub.commit.commit.header.identity != p.call.identity
              && p.pc.pub.commit.commit.header.request == p.call.request
  {
    InvAlways(trace, labels, k);
    hide Behavior, Inv, SharedInv, CallOk, PcOk, Answers, Known;
    var s, p := trace[k], trace[k].procs[x];
    CallerOk(s, x);
    EndedFacts(s.shared, p.call, p.pc);
    if p.pc.Done? {
      MismatchedAnswer(s.shared, p.call, p.pc.pub);
    }
  }

  lemma MismatchedAnswer(sh: Shared, call: Call, pub: Published)
    requires SharedInv(sh) && CallOk(sh, call) && Answers(sh, call, pub) && BoundElsewhere(sh, call)
    ensures pub.commit.CommitDigest? && pub.commit.commit.header.identity != call.identity
            && pub.commit.commit.header.request == call.request
  {
    RecordedIsRestorable(sh, call.resource, pub.generation, call.identity);
    hide SharedInv, Hist, Records, RequestAccepted, RequestsAgree, PublishedFromView;
    AcceptedRequests(pub.commit.commit, call.identity, sh.intents[call.identity].body.request, call.request);
  }

  /** A caller that scans the chain for an identity recorded under another
      request reports the conflict unless it supplied the leader's request. */
  lemma ScanConflictIff(sh: Shared, call: Call, g: nat)
    requires SharedInv(sh) && CallOk(sh, call) && RecordedAt(sh, call.resource, g, call.identity)
    requires !Known(sh, call.identity, call.resource, call.request)
    ensures AfterScan(call, sh, CreateHead) == Conflict
            <==> !(Hist(sh, call.resource)[g - 1].commit.header.identity != call.identity
                   && Hist(sh, call.resource)[g - 1].commit.header.request == call.request)
  {
    FindsOriginal(sh, call, g);
    RecordedIsRestorable(sh, call.resource, g, call.identity);
    hide SharedInv, CallOk, Hist, Records, RequestAccepted, RequestsAgree, PublishedFromView, FindRecorded;
    AcceptedRequests(Hist(sh, call.resource)[g - 1].commit, call.identity, sh.intents[call.identity].body.request,
                     call.request);
  }

  /** Only a call that was to leave a pending intent ends so, and then its row is
      bound to its request: what a batch asks of its companions. */
  lemma AdmittedIsBound(trace: seq<State>, labels: seq<Label>, k: nat, x: nat)
    requires Behavior(trace, labels) && k < |trace| && x in trace[k].procs && trace[k].procs[x].pc.Admitted?
    ensures var sh, call := trace[k].shared, trace[k].procs[x].call;
            && call.Ensure? && call.identity in sh.intents
            && sh.intents[call.identity].body.resource == call.resource
            && sh.intents[call.identity].body.request == call.request
  {
    InvAlways(trace, labels, k);
    hide Behavior, Inv, SharedInv, CallOk, PcOk;
    CallerOk(trace[k], x);
    EndedFacts(trace[k].shared, trace[k].procs[x].call, trace[k].procs[x].pc);
  }

  // ---- no false recovery failure -------------------------------------------------------------

  /** In every reachable state a caller that resolves a loaded row finds the head
      at or past its base and the commit it needs: it never reports a failed
      recovery, nor a conflict, for its own bound request. */
  lemma ResolveNeverFails(trace: seq<State>, labels: seq<Label>, k: nat, x: nat)
    requires Behavior(trace, labels) && k < |trace| && x in trace[k].procs && trace[k].procs[x].pc.Resolving?
    ensures var p := trace[k].procs[x];
            var next := AfterResolve(p.call, trace[k].shared, p.pc.intent, p.pc.version);
            !next.Failed? && !next.Conflict?
  {
    InvAlways(trace, labels, k);
    var p := trace[k].procs[x];
    ResolveFacts(trace[k].shared, p.call, p.pc.intent, p.pc.version);
  }

  /** An applied row is always confirmed by live history: the engine's rescan
      after a cached answer is never reached. */
  lemma AppliedAlwaysAnswers(trace: seq<State>, labels: seq<Label>, k: nat, x: nat)
    requires Behavior(trace, labels) && k < |trace| && x in trace[k].procs
    ensures !trace[k].procs[x].pc.CachedScan? && !trace[k].procs[x].pc.CachedHead?
    ensures trace[k].procs[x].pc.Cached? ==>
              && trace[k].procs[x].pc.intent.state.Applied?
              && TryCached(trace[k].shared, trace[k].procs[x].call, trace[k].procs[x].pc.intent.state.generation,
                        trace[k].procs[x].pc.intent.state.commit).Some?
  {
    InvAlways(trace, labels, k);
    var s, p := trace[k], trace[k].procs[x];
    assert PcOk(s.shared, p.call, p.pc);
    if p.pc.Cached? {
      CachedFacts(s.shared, p.call, p.pc.intent);
    }
  }

  lemma SyncIsBounded(sh: Shared, call: Call, pc: Pc)
    requires PcOk(sh, call, pc) && pc.Syncing?
    ensures DraftOk(call, pc.snap, pc.draft)
  {
    hide SnapOk, DraftOk, Known;
  }

  /** A batch never finds a companion's row missing before its swap. */
  lemma CompanionsNeverMissing(trace: seq<State>, labels: seq<Label>, k: nat, x: nat)
    requires Behavior(trace, labels) && k < |trace| && x in trace[k].procs && trace[k].procs[x].pc.Syncing?
    ensures !AfterSyncLoad(trace[k].shared, trace[k].procs[x].pc.snap, trace[k].procs[x].pc.draft,
                           trace[k].procs[x].pc.k).Failed?
  {
    InvAlways(trace, labels, k);
    hide Behavior, Inv, SharedInv, CallOk, PcOk, ReadFacts;
    var s, p := trace[k], trace[k].procs[x];
    CallerOk(s, x);
    SyncIsBounded(s.shared, p.call, p.pc);
    if p.pc.k < |p.pc.draft.companions| {
      SyncRowHeld(s.shared, p.call, p.pc.snap, p.pc.draft, p.pc.k);
    }
  }

  /** Every reachable chain is dense with exact skips. */
  lemma ReachableChainsAreDense(trace: seq<State>, labels: seq<Label>, k: nat, r: string)
    requires Behavior(trace, labels) && k < |trace|
    ensures Dense(trace[k].shared.objects, r, Hist(trace[k].shared, r))
    ensures |Hist(trace[k].shared, r)| == Head(trace[k].shared, r).value.generation
  {
    InvAlways(trace, labels, k);
    assert RefOk(trace[k].shared, r);
  }

  /** So the seek into a reachable chain finds the commit that the engine's steps
      read at a generation, `Hist(sh, r)[target - 1]`, within 2080 hops. */
  method SeekReachable(sh: Shared, r: string, target: nat, ghost trace: seq<State>, ghost labels: seq<Label>,
                       ghost k: nat)
    returns (d: Result<Digest, SeekError>, hops: nat)
    requires Behavior(trace, labels) && k < |trace| && sh == trace[k].shared
    requires 1 <= target <= Head(sh, r).value.generation < U64_LIMIT
    ensures target <= |Hist(sh, r)| == Head(sh, r).value.generation
    ensures d == Ok(Hist(sh, r)[target - 1]) && d.value.CommitDigest? && hops <= 2080
    ensures d.value.commit.header.generation == target && d.value.commit.header.resource == r
  {
    hide Behavior, Dense;
    ReachableChainsAreDense(trace, labels, k, r);
    var head := Head(sh, r).value.headCommit;
    assert head.Some?;
    d, hops := SeekGeneration(sh.objects, head.value, target, r, Hist(sh, r));
  }

  /** resolve_pending as it runs, by seek: in a reachable state it is AfterResolve. */
  method ResolveBySeek(sh: Shared, call: Call, intent: Intent, version: nat,
                       ghost trace: seq<State>, ghost labels: seq<Label>, ghost k: nat)
    returns (pc: Pc)
    requires Behavior(trace, labels) && k < |trace| && sh == trace[k].shared
    requires Head(sh, call.resource).value.generation < U64_LIMIT
    ensures pc == AfterResolve(call, sh, intent, version)
  {
    hide Behavior, Dense, Records, RequestAccepted, PublishedFromView;
    var snap := Head(sh, call.resource);
    var head := snap.value.generation;
    if head == intent.base {
      return if call.Publication? then Snapshotting(intent, version, intent.base) else Admitted;
    }
    if head < intent.base {
      return Failed;
    }
    var d, _ := SeekReachable(sh, call.resource, intent.base + 1, trace, labels, k);
    if Records(d.value.commit, call.identity) {
      if call.Publication? && !RequestAccepted(d.value.commit, call.identity, call.request) {
        return Conflict;
      }
      var p := PublishedFromView(d.value, call.identity);
      return if p.Some? then Finalizing(p.value, [Companion(call.identity, p.value.outcome)], 0) else Failed;
    }
    return if call.Publication? then Snapshotting(intent, version, head)
           else Admitting(intent.(base := head), version, snap);
  }

  /** try_cached_applied as it runs, by seek: in a reachable state it is TryCached. */
  method CachedBySeek(sh: Shared, call: Call, generation: nat, commit: Digest,
                      ghost trace: seq<State>, ghost labels: seq<Label>, ghost k: nat)
    returns (p: Option<Published>)
    requires Behavior(trace, labels) && k < |trace| && sh == trace[k].shared
    requires Head(sh, call.resource).value.generation < U64_LIMIT
    ensures p == TryCached(sh, call, generation, commit)
  {
    hide Behavior, Dense, Records, RequestAccepted, PublishedFromView;
    if generation == 0 || generation > Head(sh, call.resource).value.generation {
      return None;
    }
    var d, _ := SeekReachable(sh, call.resource, generation, trace, labels, k);
    if d.value != commit {
      return None;
    }
    if d.value.commit.header.generation != generation || d.value.commit.header.resource != call.resource {
      return None;
    }
    if !RequestAccepted(d.value.commit, call.identity, call.request)
        || !Records(d.value.commit, call.identity) {
      return None;
    }
    return PublishedFromView(d.value, call.identity);
  }
}
