/** A reachable run in which a caller that supplied a different request is
    answered instead of refused: it asked under a companion's identity with the
    batch leader's request, having loaded no intent before the row existed. */
module PublishWitness {
  import opened Wrappers
  import opened Backend
  import opened Heads
  import opened Chain
  import opened Publish

  ghost predicate Reaches(s: State) {
    exists trace: seq<State>, labels: seq<Label> :: Behavior(trace, labels) && trace[|labels|] == s
  }

  lemma ReachStep(s: State, s': State, l: Label)
    requires Reaches(s) && Next(s, s', l)
    ensures Reaches(s')
  {
    var trace: seq<State>, labels: seq<Label> :| Behavior(trace, labels) && trace[|labels|] == s;
    var trace', labels' := trace + [s'], labels + [l];
    forall k | 0 <= k < |labels'| ensures Next(trace'[k], trace'[k + 1], labels'[k]) {
      if k < |labels| {
        assert Next(trace[k], trace[k + 1], labels[k]);
        assert trace'[k] == trace[k] && trace'[k + 1] == trace[k + 1] && labels'[k] == labels[k];
      } else {
        assert trace'[k] == s && trace'[k + 1] == s' && labels'[k] == l;
      }
    }
    assert Behavior(trace', labels') && trace'[|labels'|] == s';
  }

  const LEADER := Generic(1)
  const RIDER := Generic(2)
  const LATE := Publication("log", RIDER, "p", [])
  const READY := Ensure("log", RIDER, "q", 0)
  const GROUP := Publication("log", LEADER, "p", [Item(LEADER, "p"), Item(RIDER, "q")])

  /** Some run leaves the late caller scanning and caller x, the last to start,
      at the given point. */
  ghost predicate Running(sh: Shared, x: nat, call: Call, pc: Pc) {
    exists s: State ::
      && Reaches(s) && s.shared == sh && x in s.procs && s.procs[x] == Proc(call, pc)
      && (forall y :: y in s.procs ==> y <= x)
      && 0 in s.procs && s.procs[0] == Proc(LATE, Scanning)
  }

  lemma Go(sh: Shared, x: nat, call: Call, pc: Pc, sh': Shared, pc': Pc)
    requires x > 0 && Running(sh, x, call, pc) && Step(call, sh, pc, sh', pc')
    ensures Running(sh', x, call, pc')
  {
    var s: State :|
      && Reaches(s) && s.shared == sh && x in s.procs && s.procs[x] == Proc(call, pc)
      && (forall y :: y in s.procs ==> y <= x)
      && 0 in s.procs && s.procs[0] == Proc(LATE, Scanning);
    var s' := State(sh', s.procs[x := Proc(call, pc')]);
    assert Runs(s, s', x);
    ReachStep(s, s', Run(x));
  }

  lemma Begin(sh: Shared, x: nat, call: Call, pc: Pc, call': Call)
    requires Running(sh, x, call, pc) && MayStart(sh, call')
    ensures Running(sh, x + 1, call', Loading)
  {
    var s: State :|
      && Reaches(s) && s.shared == sh && x in s.procs && s.procs[x] == Proc(call, pc)
      && (forall y :: y in s.procs ==> y <= x)
      && 0 in s.procs && s.procs[0] == Proc(LATE, Scanning);
    var s' := State(sh, s.procs[x + 1 := Proc(call', Loading)]);
    assert Starts(s, s', x + 1, call');
    ReachStep(s, s', Start(x + 1, call'));
  }

  const NOTHING := Shared(map[], map[], {})

  lemma NothingReached()
    ensures Reaches(State(NOTHING, map[]))
  {
    var s0 := State(NOTHING, map[]);
    assert Behavior([s0], []) && [s0][0] == s0;
  }

  lemma LateStarts()
    ensures Reaches(State(NOTHING, map[0 := Proc(LATE, Loading)]))
  {
    hide Reaches;
    NothingReached();
    var s1 := State(NOTHING, map[0 := Proc(LATE, Loading)]);
    assert s1.procs == map[][0 := Proc(LATE, Loading)];
    ReachStep(State(NOTHING, map[]), s1, Start(0, LATE));
  }

  lemma LateLoads()
    ensures Running(NOTHING, 0, LATE, Scanning)
  {
    hide Reaches;
    LateStarts();
    var s1 := State(NOTHING, map[0 := Proc(LATE, Loading)]);
    var s2 := State(NOTHING, s1.procs[0 := Proc(LATE, Scanning)]);
    assert Runs(s1, s2, 0);
    ReachStep(s1, s2, Run(0));
  }

  function Row(i: Identity, request: string): Intent {
    Intent(i, "log", request, 0, [], Pending)
  }

  function RiderStored(): Shared {
    NOTHING.(intents := NOTHING.intents[RIDER := Cell(Row(RIDER, "q"), 1)])
  }

  lemma NothingRecorded(sh: Shared, i: Identity)
    requires "log" !in sh.refs
    ensures Head(sh, "log") == Snapshot(EmptyRef("log"), None) && Hist(sh, "log") == []
    ensures FindRecorded(Hist(sh, "log"), i).None?
  {
  }

  lemma RiderStarts()
    ensures Running(NOTHING, 1, READY, Scanning)
  {
    hide Running;
    LateLoads();
    NothingRecorded(NOTHING, RIDER);
    Begin(NOTHING, 0, LATE, Scanning, READY);
    Go(NOTHING, 1, READY, Loading, NOTHING, Scanning);
  }

  lemma RiderAdmitted()
    ensures Running(RiderStored(), 1, READY, Admitted)
  {
    hide Running;
    NothingRecorded(NOTHING, RIDER);
    RiderStarts();
    Go(NOTHING, 1, READY, Scanning, NOTHING, Creating(0));
    Go(NOTHING, 1, READY, Creating(0), RiderStored(), Admitted);
  }

  function BothStored(): Shared {
    RiderStored().(intents := RiderStored().intents[LEADER := Cell(Row(LEADER, "p"), 1)])
  }

  lemma GroupStarts()
    ensures Running(RiderStored(), 2, GROUP, Scanning)
  {
    hide Running;
    RiderAdmitted();
    var sh := RiderStored();
    NothingRecorded(sh, LEADER);
    Begin(sh, 1, READY, Admitted, GROUP);
    Go(sh, 2, GROUP, Loading, sh, Scanning);
  }

  lemma GroupScans()
    ensures Running(RiderStored(), 2, GROUP, CreateHead)
  {
    hide Running;
    GroupStarts();
    var sh := RiderStored();
    NothingRecorded(sh, LEADER);
    Go(sh, 2, GROUP, Scanning, sh, CreateHead);
  }

  lemma GroupResolves()
    ensures Running(BothStored(), 2, GROUP, Resolving(Row(LEADER, "p"), 1))
  {
    hide Running;
    GroupScans();
    var sh := RiderStored();
    NothingRecorded(sh, LEADER);
    Go(sh, 2, GROUP, CreateHead, sh, Creating(0));
    Go(sh, 2, GROUP, Creating(0), BothStored(), Loading);
    Go(BothStored(), 2, GROUP, Loading, BothStored(), Resolving(Row(LEADER, "p"), 1));
  }

  function Batch(): Commit {
    Commit(Header("log", 1, 0, LEADER, "p", None, None), Some(Range(1, 1)),
           [Admission(LEADER, "p", 1, 1), Admission(RIDER, "q", 2, 4)], EmptyRef("log").(generation := 1), false)
  }

  function BatchDraft(): Draft {
    Draft(EmptyRef("log").(generation := 1), Batch(), Range(1, 1), [Companion(RIDER, Range(2, 4))])
  }

  function Empty(): Snapshot { Snapshot(EmptyRef("log"), None) }

  lemma BatchIsPrepared()
    ensures Prepared(GROUP, Empty(), BatchDraft())
  {
    assert History(None) == [];
    assert SkipTarget(1) == 0;
    assert CompanionsOf(Batch().admitted) == [Companion(LEADER, Range(1, 1)), Companion(RIDER, Range(2, 4))];
  }

  function Rewritten(i: Identity, request: string): Cell<Intent> {
    Cell(Row(i, request).(proposed := [CommitDigest(Batch())]), 2)
  }

  function LeaderArmed(): Shared {
    BothStored().(intents := BothStored().intents[LEADER := Rewritten(LEADER, "p")])
  }

  lemma GroupSnapshots()
    ensures Running(BothStored(), 2, GROUP, Arming(Row(LEADER, "p"), 1, Empty(), BatchDraft()))
  {
    hide Running;
    GroupResolves();
    BatchIsPrepared();
    var sh, row := BothStored(), Row(LEADER, "p");
    NothingRecorded(sh, LEADER);
    Go(sh, 2, GROUP, Resolving(row, 1), sh, Snapshotting(row, 1, 0));
    Go(sh, 2, GROUP, Snapshotting(row, 1, 0), sh, Arming(row, 1, Empty(), BatchDraft()));
  }

  lemma GroupArms()
    ensures Running(LeaderArmed(), 2, GROUP, Uploading(Empty(), BatchDraft()))
  {
    hide Running;
    GroupSnapshots();
    var sh, row := BothStored(), Row(LEADER, "p");
    Go(sh, 2, GROUP, Arming(row, 1, Empty(), BatchDraft()), LeaderArmed(), Uploading(Empty(), BatchDraft()));
  }

  function Uploaded(): Shared {
    LeaderArmed().(objects := LeaderArmed().objects + {CommitDigest(Batch())})
  }

  function Synced(): Shared {
    Uploaded().(intents := Uploaded().intents[RIDER := Rewritten(RIDER, "q")])
  }

  lemma GroupLoadsRider()
    ensures Running(Uploaded(), 2, GROUP, SyncWriting(Empty(), BatchDraft(), 0, Row(RIDER, "q"), 1))
  {
    hide Running;
    GroupArms();
    var snap, draft := Empty(), BatchDraft();
    Go(LeaderArmed(), 2, GROUP, Uploading(snap, draft), Uploaded(), Syncing(snap, draft, 0));
    Go(Uploaded(), 2, GROUP, Syncing(snap, draft, 0), Uploaded(), SyncWriting(snap, draft, 0, Row(RIDER, "q"), 1));
  }

  lemma GroupSyncs()
    ensures Running(Synced(), 2, GROUP, Swapping(Empty(), BatchDraft()))
  {
    hide Running;
    GroupLoadsRider();
    var snap, draft := Empty(), BatchDraft();
    Go(Uploaded(), 2, GROUP, SyncWriting(snap, draft, 0, Row(RIDER, "q"), 1), Synced(), Syncing(snap, draft, 1));
    Go(Synced(), 2, GROUP, Syncing(snap, draft, 1), Synced(), Swapping(snap, draft));
  }

  function Swapped(): Shared {
    Synced().(refs := Synced().refs["log" := Cell(FinalRef(BatchDraft()), 1)])
  }

  lemma BatchLands()
    ensures Running(Swapped(), 2, GROUP, Failed)
  {
    hide Running;
    GroupSyncs();
    Go(Synced(), 2, GROUP, Swapping(Empty(), BatchDraft()), Swapped(), Failed);
  }

  lemma RiderBound()
    ensures RIDER in Swapped().intents && Swapped().intents[RIDER].body.request == "q" != "p"
  {
    assert RIDER in Synced().intents && Swapped().intents == Synced().intents;
  }

  function Answer(): Published {
    Published(Range(2, 4), 1, 0, CommitDigest(Batch()), RestoredRef(CommitDigest(Batch())), Batch().admitted)
  }

  lemma OneCommitHistory()
    ensures Hist(Swapped(), "log") == [CommitDigest(Batch())]
  {
    hide SkipOf;
    var d := CommitDigest(Batch());
    assert History(None) == [];
    assert History(Some(d)) == History(Batch().header.parent) + [d];
  }

  lemma RiderIsFound()
    ensures FindRecorded([CommitDigest(Batch())], RIDER) == Some(CommitDigest(Batch()))
    ensures RequestAccepted(Batch(), RIDER, "p")
    ensures PublishedFromView(CommitDigest(Batch()), RIDER) == Some(Answer())
  {
    hide SkipOf;
    assert AdmissionOf(Batch().admitted, RIDER) == Some(Batch().admitted[1]);
  }

  lemma LateScanAnswers()
    ensures AfterScan(LATE, Swapped(), CreateHead) == Done(Answer())
  {
    OneCommitHistory();
    RiderIsFound();
    hide Hist, FindRecorded, RequestAccepted, PublishedFromView, Swapped, Batch, Answer;
  }

  /** The batch commits and its reply is lost; then the late caller's scan finds
      the batch, accepts the leader's request in place of the companion's own, and
      answers with the companion's range. */
  lemma LeaderRequestAnswersForCompanion()
    ensures exists s: State ::
              && Reaches(s) && 0 in s.procs && s.procs[0].pc.Done?
              && s.procs[0].call.identity in s.shared.intents
              && s.shared.intents[s.procs[0].call.identity].body.request != s.procs[0].call.request
              && s.procs[0].pc.pub.outcome == Range(2, 4)
  {
    BatchLands();
    LateScanAnswers();
    RiderBound();
    hide Reaches, Swapped, AfterScan, Batch;
    var s: State :|
      && Reaches(s) && s.shared == Swapped() && 2 in s.procs && s.procs[2] == Proc(GROUP, Failed)
      && (forall y :: y in s.procs ==> y <= 2)
      && 0 in s.procs && s.procs[0] == Proc(LATE, Scanning);
    var s' := State(Swapped(), s.procs[0 := Proc(LATE, Done(Answer()))]);
    assert Runs(s, s', 0);
    ReachStep(s, s', Run(0));
    assert s'.procs[0].call == LATE;
  }
}
