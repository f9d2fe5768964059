/** The stable index of a v2 log over whole runs, and the logs that can never be
    appended to again. */
module LogV2Index {
  import opened Wrappers
  import opened Heads
  import P = Publish
  import C = Catalog
  import H = Hamt
  import HP = HamtProof
  import HT = HamtTheorems
  import opened LogV2
  import opened LogV2Theorems

  // ---- the entries a run admits --------------------------------------------------------

  /** The index entries of the stable appends of a run, in order. */
  function Admitted(labels: seq<Label>): seq<H.Entry> {
    if labels == [] then []
    else
      var l := labels[|labels| - 1];
      Admitted(labels[..|labels| - 1]) + (if l.Append? then l.events.entries else [])
  }

  /** An entry names one frame of the log, and its payload. */
  predicate Points(log: seq<Frame>, e: H.Entry) {
    1 <= e.first == e.last <= |log| && log[e.first - 1] == C.Frame(e.first, e.payloadHash)
  }

  /** The index of a state, if it has one, stands for the entries admitted, and
      without one nothing was admitted; a log with an index is complete, and every
      entry points at its frame. */
  ghost predicate Agrees(s: LogState, es: seq<H.Entry>) {
    var d := Current(s);
    && (if d.index.Some? then HT.Represents(s.nodes, d.index.value, HT.SetOf(es), H.Head(s.generation, d.headSeq))
        else es == [])
    && (d.index.Some? ==> d.complete)
    && (forall k :: 0 <= k < |es| ==> Points(LogOf(d), es[k]))
  }

  // ---- one operation -----------------------------------------------------------------------

  lemma IndexStays(nodes: set<H.Digest>, nodes': set<H.Digest>, root: H.Root, S: set<H.Entry>, head: H.Head,
                   later: H.Head)
    requires HT.Represents(nodes, root, S, head) && nodes <= nodes'
    requires head.generation <= later.generation && head.headSeq <= later.headSeq
    ensures HT.Represents(nodes', root, S, later)
  {
    HT.RepresentsUnderLaterHead(nodes, root, S, head, later);
    hide HP.Build;
    HP.StoredStays(nodes, nodes', root.digest);
  }

  lemma PointsStay(log: seq<Frame>, log': seq<Frame>, es: seq<H.Entry>)
    requires log <= log' && forall k :: 0 <= k < |es| ==> Points(log, es[k])
    ensures forall k :: 0 <= k < |es| ==> Points(log', es[k])
  {
  }

  /** The entries of an append point at the frames it adds. */
  lemma NewEntriesPoint(d: Domain, log: seq<Frame>, generics: seq<Item>, stables: seq<StableItem>, generation: nat,
                        e: Events)
    requires Extends(d, generics, stables, generation, e) && |log| == d.headSeq
    ensures forall k :: 0 <= k < |e.entries| ==> Points(log + e.chunk, e.entries[k])
  {
    hide Gathered, Admissions;
    var all := Gathered(generics) + StablePayloads(stables);
    forall k | 0 <= k < |e.entries| ensures Points(log + e.chunk, e.entries[k]) {
      var at := |Gathered(generics)| + k;
      assert all[at] == StablePayloads(stables)[k] == stables[k].payload;
      assert (log + e.chunk)[d.headSeq + at] == e.chunk[at] == C.Frame(d.headSeq + 1 + at, all[at]);
      assert e.entries[k].first == d.headSeq + at + 1;
    }
  }

  lemma JoinedPoint(log: seq<Frame>, a: seq<H.Entry>, b: seq<H.Entry>)
    requires forall k :: 0 <= k < |a| ==> Points(log, a[k])
    requires forall k :: 0 <= k < |b| ==> Points(log, b[k])
    ensures forall k :: 0 <= k < |a + b| ==> Points(log, (a + b)[k])
    ensures HT.SetOf(a + b) == HT.SetOf(a) + HT.SetOf(b)
  {
    hide Points;
  }

  lemma DomainsAgree(target: Option<Domain>, completeFeed: bool)
    ensures var d, c := DomainOf(target, completeFeed), DomainOf(target, false);
            d.index == c.index && d.headSeq == c.headSeq && LogOf(d) == LogOf(c)
  {
  }

  lemma AppendIndexes(s: LogState, completeFeed: bool, es: seq<H.Entry>)
    requires Agrees(s, es)
    ensures Indexed(s.nodes, DomainOf(s.target, completeFeed), HT.SetOf(es), s.generation + 1)
  {
    hide HT.Represents, LogOf, Points;
    DomainsAgree(s.target, completeFeed);
    var d := Current(s);
    if d.index.Some? {
      HT.RepresentsUnderLaterHead(s.nodes, d.index.value, HT.SetOf(es), H.Head(s.generation, d.headSeq),
                                  H.Head(s.generation + 1, d.headSeq));
    } else {
      assert HT.SetOf([]) == {};
    }
  }

  lemma AppendAgrees(s: LogState, s': LogState, l: Label, es: seq<H.Entry>)
    requires Holds(s.store, Current(s)) && Agrees(s, es) && Next(s, s', l) && l.Append?
    ensures Agrees(s', es + l.events.entries)
  {
    hide HT.Represents, LogOf, Points, Extends, MayPrepare, Reindex, DomainOf, HT.SetOf;
    var d, g, e := DomainOf(s.target, l.completeFeed), s.generation + 1, l.events;
    AppendIndexes(s, l.completeFeed, es);
    MayPrepareExactly(s.nodes, s.target, l.completeFeed, l.generics, l.stables, g, HT.SetOf(es));
    AppendCounts(d, l.generics, l.stables, g, e);
    AppendPoints(s, s', l, es);
    JoinedPoint(LogOf(e.domain), es, e.entries);
    if e.domain.index.None? {
      NothingStable(s, l.completeFeed, l.generics, l.stables, es);
    }
    SomeDomain(e.domain);
  }

  lemma SomeDomain(d: Domain)
    ensures DomainOf(Some(d), false) == d
  {
  }

  lemma AppendCounts(d: Domain, generics: seq<Item>, stables: seq<StableItem>, generation: nat, e: Events)
    requires Extends(d, generics, stables, generation, e)
    ensures d.headSeq + |Gathered(generics)| + |stables| == e.domain.headSeq && |e.entries| == |stables|
    ensures e.domain.complete <==> e.domain.index.Some?
    ensures e.entries == EntriesOf(stables, d.headSeq + |Gathered(generics)|, generation)
  {
    hide Gathered, Admissions, EntriesOf;
  }

  lemma AppendPoints(s: LogState, s': LogState, l: Label, es: seq<H.Entry>)
    requires Holds(s.store, Current(s)) && Agrees(s, es) && Next(s, s', l) && l.Append?
    ensures forall k :: 0 <= k < |es| ==> Points(LogOf(l.events.domain), es[k])
    ensures forall k :: 0 <= k < |l.events.entries| ==> Points(LogOf(l.events.domain), l.events.entries[k])
  {
    hide HT.Represents, LogOf, Points, Extends, MayPrepare, Reindex;
    var d := DomainOf(s.target, l.completeFeed);
    DomainsAgree(s.target, l.completeFeed);
    EmptyHolds(s.store, l.completeFeed);
    AppendHolds(s.store, d, l.generics, l.stables, s.generation + 1, l.events);
    NewEntriesPoint(d, LogOf(d), l.generics, l.stables, s.generation + 1, l.events);
    PointsStay(LogOf(d), LogOf(l.events.domain), es);
  }

  /** An append that keeps no index adds no entry, and none was there. */
  lemma NothingStable(s: LogState, completeFeed: bool, generics: seq<Item>, stables: seq<StableItem>, es: seq<H.Entry>)
    requires Agrees(s, es)
    requires Reindex(s.nodes, DomainOf(s.target, completeFeed), completeFeed, generics, stables,
                     s.generation + 1).result == Ok(None)
    ensures es == [] && stables == []
  {
    hide HT.Represents, LogOf, Points, AddStables;
  }

  /** Compaction, trimming and everything else keep the index. */
  lemma OtherAgrees(s: LogState, s': LogState, l: Label, es: seq<H.Entry>)
    requires Holds(s.store, Current(s)) && Agrees(s, es) && Next(s, s', l) && !l.Append?
    ensures Agrees(s', es)
  {
    StepHolds(s, s', l);
    hide HT.Represents, LogOf, Points, Flat, SortFrames, Holds;
    var d, d' := Current(s), Current(s');
    assert d'.index == d.index && d'.headSeq == d.headSeq;
    PointsStay(LogOf(d), LogOf(d'), es);
    if d.index.Some? {
      IndexStays(s.nodes, s'.nodes, d.index.value, HT.SetOf(es), H.Head(s.generation, d.headSeq),
                 H.Head(s'.generation, d.headSeq));
    }
  }

  // ---- runs ------------------------------------------------------------------------------------

  lemma BehaviorStep(trace: seq<LogState>, labels: seq<Label>, k: nat)
    requires Behavior(trace, labels) && k + 1 < |trace|
    ensures k < |labels| && Next(trace[k], trace[k + 1], labels[k])
    ensures labels[..k + 1][..k] == labels[..k] && labels[..k + 1][k] == labels[k]
  {
    hide Next;
  }

  /** In every reachable state the index stands for exactly the entries the run
      admitted, each of which points at its frame in the log. */
  lemma {:induction false} RunAgrees(trace: seq<LogState>, labels: seq<Label>, k: nat)
    requires Behavior(trace, labels) && k < |trace|
    ensures k <= |labels| && Agrees(trace[k], Admitted(labels[..k]))
  {
    hide Next, Holds, Agrees;
    if k == 0 {
      NothingAdmittedYet(trace[0]);
    } else {
      BehaviorStep(trace, labels, k - 1);
      RunAgrees(trace, labels, k - 1);
      RunHolds(trace, labels, k - 1);
      if labels[k - 1].Append? {
        AppendAgrees(trace[k - 1], trace[k], labels[k - 1], Admitted(labels[..k - 1]));
      } else {
        OtherAgrees(trace[k - 1], trace[k], labels[k - 1], Admitted(labels[..k - 1]));
        assert Admitted(labels[..k - 1]) + [] == Admitted(labels[..k - 1]);
      }
    }
  }

  lemma NothingAdmittedYet(s: LogState)
    requires s.target.None?
    ensures Agrees(s, [])
  {
  }

  /** So an append is prepared exactly within the caps and under paths that no
      stable append of the run took. */
  lemma AppendExactly(trace: seq<LogState>, labels: seq<Label>, k: nat,
                      completeFeed: bool, generics: seq<Item>, stables: seq<StableItem>)
    requires Behavior(trace, labels) && k < |trace|
    ensures k <= |labels|
    ensures MayPrepare(trace[k].nodes, trace[k].target, completeFeed, generics, stables, trace[k].generation + 1)
            <==> MayAppend(trace[k].target, completeFeed, generics, stables, HT.SetOf(Admitted(labels[..k])))
  {
    hide Behavior, Agrees, MayPrepare, MayAppend;
    RunAgrees(trace, labels, k);
    AppendIndexes(trace[k], completeFeed, Admitted(labels[..k]));
    MayPrepareExactly(trace[k].nodes, trace[k].target, completeFeed, generics, stables, trace[k].generation + 1,
                      HT.SetOf(Admitted(labels[..k])));
  }

  // ---- frozen logs --------------------------------------------------------------------------------

  /** A log marked complete without an index. */
  predicate Frozen(s: LogState) {
    s.target.Some? && s.target.value.complete && s.target.value.index.None?
  }

  /** The compaction of a complete-mode caller on a log without an index. */
  predicate Freezes(s: LogState, l: Label) {
    l.Compact? && l.completeFeed && s.target.Some? && s.target.value.index.None?
  }

  /** No append is prepared on a frozen log, and no trim. */
  lemma FrozenRefuses(s: LogState, completeFeed: bool, generics: seq<Item>, stables: seq<StableItem>, s': LogState,
                      before: nat)
    requires Frozen(s)
    ensures !MayPrepare(s.nodes, s.target, completeFeed, generics, stables, s.generation + 1)
    ensures !Next(s, s', Trim(before))
  {
    hide Reindex, Gathered;
  }

  lemma FrozenStep(s: LogState, s': LogState, l: Label)
    requires Next(s, s', l)
    ensures Frozen(s') <==> Frozen(s) || Freezes(s, l)
    ensures Frozen(s) && s.target.value.chunks == [] ==> s'.target == s.target
    ensures Freezes(s, l) ==> s'.target.value.chunks == []
  {
    hide Reindex, Gathered, Flat, SortFrames, Admissions, EntriesOf, StablePayloads, FramesFrom;
  }

  /** A log freezes exactly when a complete-mode caller compacts it while it has no
      index. */
  lemma {:induction false} FrozenExactly(trace: seq<LogState>, labels: seq<Label>, k: nat)
    requires Behavior(trace, labels) && k < |trace|
    ensures k <= |labels|
    ensures Frozen(trace[k]) <==> exists j :: 0 <= j < k && Freezes(trace[j], labels[j])
    ensures Frozen(trace[k]) ==> trace[k].target.value.chunks == []
  {
    hide Next, Freezes;
    if k > 0 {
      BehaviorStep(trace, labels, k - 1);
      FrozenExactly(trace, labels, k - 1);
      FrozenStep(trace[k - 1], trace[k], labels[k - 1]);
    }
  }

  /** And it stays as it is for good. */
  lemma {:induction false} FrozenForGood(trace: seq<LogState>, labels: seq<Label>, j: nat, k: nat)
    requires Behavior(trace, labels) && j <= k < |trace| && Frozen(trace[j])
    ensures trace[k].target == trace[j].target
    decreases k
  {
    hide Next, Freezes;
    if j < k {
      BehaviorStep(trace, labels, k - 1);
      FrozenForGood(trace, labels, j, k - 1);
      FrozenExactly(trace, labels, k - 1);
      FrozenStep(trace[k - 1], trace[k], labels[k - 1]);
    }
  }

  // ---- a log that freezes -----------------------------------------------------------------------------

  ghost predicate Reaches(s: LogState) {
    exists trace: seq<LogState>, labels: seq<Label> :: Behavior(trace, labels) && trace[|labels|] == s
  }

  lemma ReachStep(s: LogState, s': LogState, l: Label)
    requires Reaches(s) && Next(s, s', l)
    ensures Reaches(s')
  {
    hide Next;
    var trace: seq<LogState>, labels: seq<Label> :| Behavior(trace, labels) && trace[|labels|] == s;
    var trace', labels' := trace + [s'], labels + [l];
    forall k | 0 <= k < |labels'| ensures Next(trace'[k], trace'[k + 1], labels'[k]) {
      if k < |labels| {
        assert Next(trace[k], trace[k + 1], labels[k]);
        assert trace'[k] == trace[k] && trace'[k + 1] == trace[k + 1] && labels'[k] == labels[k];
      } else {
        assert trace'[k] == s && trace'[k + 1] == s' && labels'[k] == l;
      }
    }
    assert Behavior(trace', labels') && trace'[|labels'|] == s';
  }

  lemma ReachedHolds(s: LogState)
    requires Reaches(s)
    ensures Holds(s.store, Current(s))
  {
    hide Next, Holds;
    var trace: seq<LogState>, labels: seq<Label> :| Behavior(trace, labels) && trace[|labels|] == s;
    hide Behavior;
    RunHolds(trace, labels, |labels|);
  }

  const ONE := Item(Generic(1), "q", [[1]])

  lemma OneItem(head: nat)
    ensures PayloadsOk(ONE.payloads) && Gathered([ONE]) == [[1]] && |Admissions([ONE], head)| == 1
  {
    assert [ONE][..0] == [] && [[1]][..0] == [];
    assert Bytes([[1]]) == Bytes([]) + 1;
  }

  lemma PlainMayPrepare(s: LogState)
    requires Current(s).headSeq < 10 && !Current(s).complete && Current(s).index.None?
    ensures MayPrepare(s.nodes, s.target, false, [ONE], [], s.generation + 1)
    ensures Reindex(s.nodes, Current(s), false, [ONE], [], s.generation + 1) == Indexing(s.nodes, Ok(None))
  {
    OneItem(Current(s).headSeq);
    hide Gathered, Admissions, PayloadsOk;
  }

  /** A trimmable append of one event: it leaves no index. */
  lemma PlainAppend(s: LogState) returns (s': LogState)
    requires Reaches(s) && Current(s).headSeq < 10 && !Current(s).complete && Current(s).index.None?
    ensures Reaches(s') && s'.target.Some? && !s'.target.value.complete && s'.target.value.index.None?
    ensures s'.target.value.headSeq == Current(s).headSeq + 1 && |s'.target.value.chunks| == |Current(s).chunks| + 1
  {
    var d, g := Current(s), s.generation + 1;
    OneItem(d.headSeq);
    var a := Admissions([ONE], d.headSeq);
    var companions := P.CompanionsOf(a);
    var e := WithChunk(d, [[1]], false, None, a, [], companions[0].result, companions[1..]);
    hide Gathered, Admissions, Reaches, PayloadsOk;
    assert Gathered([ONE]) + StablePayloads([]) == [[1]];
    assert EntriesOf([], d.headSeq + 1, g) == [];
    WithChunkExtends(d, [ONE], [], g, [[1]], false, None, a, [], companions[0].result, companions[1..]);
    s' := LogState(s.store + {e.chunk}, s.nodes, Some(e.domain), g);
    PlainMayPrepare(s);
    hide MayPrepare, Extends, Reindex;
    assert Prepares(s.nodes, s.target, false, [ONE], [], g, s.nodes, e);
    ReachStep(s, s', Append([ONE], [], false, e));
  }

  lemma CompactHappens(s: LogState) returns (s': LogState)
    requires Reaches(s) && s.target.Some? && |s.target.value.chunks| >= 2 && s.target.value.index.None?
    ensures Reaches(s') && Frozen(s') && s'.target.value.headSeq == s.target.value.headSeq
  {
    var d := s.target.value;
    ReachedHolds(s);
    CompactHolds(s.store, d, true);
    ChunksStored(s.store, d);
    hide Reaches, Holds, Flat, SortFrames, AllStored;
    var frames := SortFrames(Flat(d.chunks));
    s' := LogState(s.store + {frames}, s.nodes, Some(Compacted(d, true)), s.generation + 1);
    ReachStep(s, s', Compact(true));
  }

  lemma ChunksStored(store: set<seq<Frame>>, d: Domain)
    requires Holds(store, d)
    ensures AllStored(store, d.chunks)
  {
    hide Flat;
    forall k | 0 <= k < |d.chunks| ensures d.chunks[k].chunk in store {
      assert (d.segments + d.chunks)[|d.segments| + k] == d.chunks[k];
    }
  }

  /** Two trimmable appends and a complete-mode compaction freeze a log. */
  lemma FreezeHappens()
    ensures exists s: LogState :: Reaches(s) && Frozen(s) && LogOf(s.target.value) != []
  {
    var s0 := LogState({}, {}, None, 0);
    assert Behavior([s0], []) && [s0][0] == s0;
    hide Reaches;
    var s1 := PlainAppend(s0);
    var s2 := PlainAppend(s1);
    var s3 := CompactHappens(s2);
    ReachedHolds(s3);
  }
}
