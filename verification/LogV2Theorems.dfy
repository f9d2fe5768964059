/** What the trimmable log promises over runs of append, group append, compact
    and trim. */
module LogV2Theorems {
  import opened Wrappers
  import P = Publish
  import C = Catalog
  import H = Hamt
  import opened LogV2

  // ---- what a domain stands for --------------------------------------------------------

  predicate Numbered(log: seq<Frame>) {
    forall k :: 0 <= k < |log| ==> log[k].position == k + 1
  }

  predicate Bounded(s: Segment) {
    s.chunk != [] && s.first == s.chunk[0].position && s.last == s.chunk[|s.chunk| - 1].position
  }

  function LogOf(d: Domain): seq<Frame> {
    Flat(d.segments + d.chunks)
  }

  /** Segments then chunks hold the sequences 1 to head once each, in order, all
      stored; the floor is not past the head. */
  ghost predicate Holds(store: set<seq<Frame>>, d: Domain) {
    && Numbered(LogOf(d)) && d.headSeq == |LogOf(d)| && d.trimBefore <= d.headSeq
    && AllStored(store, d.segments + d.chunks)
    && forall s :: s in d.segments + d.chunks ==> Bounded(s)
  }

  // ---- flattening ---------------------------------------------------------------------------

  lemma {:induction false} FlatJoin(a: seq<Segment>, b: seq<Segment>)
    ensures Flat(a + b) == Flat(a) + Flat(b)
  {
    if b == [] {
      assert a + b == a;
    } else {
      FlatJoin(a, b[..|b| - 1]);
      assert (a + b)[..|a + b| - 1] == a + b[..|b| - 1];
    }
  }

  lemma {:induction false} FlatNonempty(refs: seq<Segment>)
    requires refs != [] && forall s :: s in refs ==> Bounded(s)
    ensures Flat(refs) != []
  {
    assert refs[|refs| - 1] in refs;
  }

  lemma NumberedPart(a: seq<Frame>, b: seq<Frame>, c: seq<Frame>)
    requires Numbered(a + b + c)
    ensures forall k :: 0 <= k < |b| ==> b[k].position == |a| + k + 1
    ensures Ascending(b)
  {
    forall k | 0 <= k < |b| ensures b[k].position == |a| + k + 1 {
      assert (a + b + c)[|a| + k] == b[k];
    }
  }

  // ---- every operation keeps it -------------------------------------------------------------

  lemma AppendHolds(store: set<seq<Frame>>, d: Domain, generics: seq<Item>, stables: seq<StableItem>, generation: nat,
                    e: Events)
    requires Holds(store, d) && Extends(d, generics, stables, generation, e)
    ensures Holds(store + {e.chunk}, e.domain) && LogOf(e.domain) == LogOf(d) + e.chunk
    ensures e.domain.trimBefore == d.trimBefore
  {
    hide Flat, Gathered, P.CompanionsOf, EntriesOf, Admissions, StablePayloads;
    var s := Segment(e.chunk, d.headSeq + 1, e.domain.headSeq);
    assert e.domain.segments + e.domain.chunks == d.segments + d.chunks + [s];
    FlatSnoc(d.segments + d.chunks, s);
    assert Bounded(s);
  }

  /** Compacting moves the chunks' frames to one segment, unsorted order already
      being the order, and leaves the log as it was. */
  lemma CompactHolds(store: set<seq<Frame>>, d: Domain, completeFeed: bool)
    requires Holds(store, d) && d.chunks != []
    ensures SortFrames(Flat(d.chunks)) == Flat(d.chunks) != []
    ensures Holds(store + {Flat(d.chunks)}, Compacted(d, completeFeed))
    ensures LogOf(Compacted(d, completeFeed)) == LogOf(d)
  {
    hide Flat, SortFrames;
    var frames := Flat(d.chunks);
    FlatJoin(d.segments, d.chunks);
    FlatNonempty(d.chunks);
    assert Flat(d.segments) + frames + [] == Flat(d.segments) + frames;
    NumberedPart(Flat(d.segments), frames, []);
    AscendingStays(frames);
    var c := Compacted(d, completeFeed);
    assert c.segments + c.chunks == d.segments + [Merged(frames)];
    FlatSnoc(d.segments, Merged(frames));
    forall k | 0 <= k < |d.segments| ensures d.segments[k].chunk in store && Bounded(d.segments[k]) {
      assert (d.segments + d.chunks)[k] == d.segments[k];
    }
    assert Bounded(Merged(frames));
  }

  lemma TrimHolds(store: set<seq<Frame>>, d: Domain, before: nat)
    requires Holds(store, d)
    ensures Holds(store, TrimmedTo(d, before)) && LogOf(TrimmedTo(d, before)) == LogOf(d)
    ensures d.trimBefore <= TrimmedTo(d, before).trimBefore <= d.headSeq
  {
  }

  // ---- reading ----------------------------------------------------------------------------------

  function Suffix(log: seq<Frame>, from: nat): seq<Frame> {
    if from <= 1 then log else if from - 1 <= |log| then log[from - 1..] else []
  }

  /** What LogManifest.Read returns when every chunk is stored. */
  function ReadOf(d: Domain, from: nat): Result<seq<Frame>, Error> {
    if d.trimBefore > 0 && from <= d.trimBefore then Err(Trimmed(d.trimBefore + 1))
    else Ok(SortFrames(Kept(Flat(Above(d.segments + d.chunks, from)), from, d.trimBefore)))
  }

  lemma {:induction false} KeptSuffix(log: seq<Frame>, from: nat, floor: nat)
    requires Numbered(log) && (floor == 0 || from > floor)
    ensures Kept(log, from, floor) == Suffix(log, from)
  {
    hide Kept;
    if log != [] {
      var rest, f := log[..|log| - 1], log[|log| - 1];
      KeptSuffix(rest, from, floor);
      KeptSnoc(rest, f, from, floor);
      SuffixSnoc(rest, f, from);
      assert log == rest + [f];
      assert f.position == |log|;
    } else {
      assert Above([], from) == [];
      NothingKept(from, floor);
    }
  }

  lemma SuffixSnoc(rest: seq<Frame>, f: Frame, from: nat)
    ensures Suffix(rest + [f], from) == Suffix(rest, from) + (if from <= |rest| + 1 then [f] else [])
  {
    if 1 < from && from - 1 <= |rest| {
      assert (rest + [f])[from - 1..] == rest[from - 1..] + [f];
    }
  }

  lemma {:induction false} NothingKeptBelow(frames: seq<Frame>, from: nat, floor: nat)
    requires forall k :: 0 <= k < |frames| ==> frames[k].position < from
    ensures Kept(frames, from, floor) == []
  {
    if frames != [] {
      NothingKeptBelow(frames[..|frames| - 1], from, floor);
    }
  }

  /** Skipping whole chunks below `from` skips no frame that would be kept. */
  lemma {:induction false} SkippingIsSafe(refs: seq<Segment>, from: nat, floor: nat)
    requires forall s :: s in refs ==> Bounded(s) && Ascending(s.chunk)
    ensures Kept(Flat(Above(refs, from)), from, floor) == Kept(Flat(refs), from, floor)
  {
    hide Kept;
    if refs == [] {
    } else {
      var rest, last := refs[..|refs| - 1], refs[|refs| - 1];
      assert last in refs && refs == rest + [last];
      SkippingIsSafe(rest, from, floor);
      FlatSnoc(rest, last);
      KeptJoin(Flat(rest), last.chunk, from, floor);
      if last.last >= from {
        FlatSnoc(Above(rest, from), last);
        KeptJoin(Flat(Above(rest, from)), last.chunk, from, floor);
      } else {
        NothingKeptBelow(last.chunk, from, floor);
        assert Above(refs, from) == Above(rest, from);
      }
    }
  }

  lemma {:induction false} ChunksAscend(refs: seq<Segment>, a: seq<Frame>)
    requires Numbered(a + Flat(refs))
    ensures forall s :: s in refs ==> Ascending(s.chunk)
  {
    hide Numbered, Ascending;
    if refs != [] {
      var rest, last := refs[..|refs| - 1], refs[|refs| - 1];
      assert a + Flat(refs) == a + Flat(rest) + last.chunk;
      assert a + Flat(rest) + last.chunk + [] == a + Flat(rest) + last.chunk;
      NumberedPart(a + Flat(rest), last.chunk, []);
      NumberedPrefix(a + Flat(rest), last.chunk);
      ChunksAscend(rest, a);
      assert forall s :: s in refs ==> s in rest || s == last;
    }
  }

  lemma NumberedPrefix(a: seq<Frame>, b: seq<Frame>)
    requires Numbered(a + b)
    ensures Numbered(a)
  {
    forall k | 0 <= k < |a| ensures a[k].position == k + 1 {
      assert (a + b)[k] == a[k];
    }
  }

  /** Reading above the floor gives exactly `from` to head; at or below it, the
      refusal that names where to resume. */
  lemma ReadIsSuffix(store: set<seq<Frame>>, d: Domain, from: nat)
    requires Holds(store, d)
    ensures ReadOf(d, from)
            == if d.trimBefore > 0 && from <= d.trimBefore then Err(Trimmed(d.trimBefore + 1))
               else Ok(Suffix(LogOf(d), from))
  {
    hide Flat, Kept, Above, SortFrames;
    if !(d.trimBefore > 0 && from <= d.trimBefore) {
      assert [] + LogOf(d) == LogOf(d);
      ChunksAscend(d.segments + d.chunks, []);
      SkippingIsSafe(d.segments + d.chunks, from, d.trimBefore);
      KeptSuffix(LogOf(d), from, d.trimBefore);
      AscendingStays(Suffix(LogOf(d), from));
    }
  }

  /** Compaction changes no read. */
  lemma CompactKeepsReads(store: set<seq<Frame>>, d: Domain, completeFeed: bool, from: nat)
    requires Holds(store, d) && d.chunks != []
    ensures SortFrames(Flat(d.chunks)) != [] && ReadOf(Compacted(d, completeFeed), from) == ReadOf(d, from)
  {
    hide Holds, ReadOf, Flat, SortFrames;
    CompactHolds(store, d, completeFeed);
    ReadIsSuffix(store, d, from);
    ReadIsSuffix(store + {Flat(d.chunks)}, Compacted(d, completeFeed), from);
  }

  /** A trim changes no read from above both floors, and refuses the reads from at
      or below its bound, naming the first sequence kept. */
  lemma TrimReads(store: set<seq<Frame>>, d: Domain, before: nat, from: nat)
    requires Holds(store, d)
    ensures (from > d.trimBefore || d.trimBefore == 0) && (from > before || before == 0) ==>
              ReadOf(TrimmedTo(d, before), from) == ReadOf(d, from)
    ensures 0 < from <= before <= d.headSeq ==>
              ReadOf(TrimmedTo(d, before), from)
              == Err(Trimmed((if before > d.trimBefore then before else d.trimBefore) + 1))
  {
    hide Holds, ReadOf, Flat;
    TrimHolds(store, d, before);
    ReadIsSuffix(store, d, from);
    ReadIsSuffix(store, TrimmedTo(d, before), from);
  }

  // ---- a group tiles the range it appends ---------------------------------------------------------

  /** Item k's admission starts right after item k-1's ends, the first right after
      the old head, and the last ends at the new head. */
  lemma {:induction false} GroupTiles(items: seq<Item>, head: nat, k: nat)
    requires k < |items|
    ensures var a := Admissions(items, head);
            && a[k].identity == items[k].identity && a[k].request == items[k].request
            && a[k].first == (if k == 0 then head + 1 else a[k - 1].last + 1)
            && a[k].last + 1 == a[k].first + |items[k].payloads|
            && head < a[k].first && a[k].last <= head + |Gathered(items)|
            && (k == |items| - 1 ==> a[k].last == head + |Gathered(items)|)
  {
    hide Gathered, Admissions;
    var rest, last := items[..|items| - 1], items[|items| - 1];
    assert items == rest + [last];
    AdmitSnoc(rest, last, head);
    if k < |items| - 1 {
      GroupTiles(rest, head, k);
    } else if k > 0 {
      GroupTiles(rest, head, k - 1);
    } else {
      assert rest == [];
      NothingAdmitted(head);
    }
  }

  /** The frames an admission names are its item's payloads, in order. */
  lemma {:induction false} GroupFrames(items: seq<Item>, head: nat, k: nat, j: nat)
    requires k < |items| && j < |items[k].payloads|
    ensures var first := Admissions(items, head)[k].first;
            && head < first && first - head - 1 + j < |Gathered(items)|
            && FramesFrom(head + 1, Gathered(items))[first - head - 1 + j] == C.Frame(first + j, items[k].payloads[j])
  {
    hide Gathered, Admissions;
    var rest, last := items[..|items| - 1], items[|items| - 1];
    assert items == rest + [last];
    AdmitSnoc(rest, last, head);
    if k < |items| - 1 {
      GroupFrames(rest, head, k, j);
      var at := Admissions(rest, head)[k].first - head - 1 + j;
      assert FramesFrom(head + 1, Gathered(rest))[at].payload == Gathered(rest)[at];
    }
  }

  // ---- runs ------------------------------------------------------------------------------------------

  /** The chunks and index nodes stored, the manifest of the head commit, and the
      generation of the ref. */
  datatype LogState = LogState(store: set<seq<Frame>>, nodes: set<H.Digest>, target: Option<Domain>, generation: nat)

  datatype Label =
    | Append(generics: seq<Item>, stables: seq<StableItem>, completeFeed: bool, events: Events)
    | Compact(completeFeed: bool)
    | Trim(before: nat)
    | Other(uploaded: set<seq<Frame>>, nodes: set<H.Digest>, generation: nat)

  /** An operation whose plan was prepared on the current manifest and won its
      swap; `Other` is anything that only uploads, claims or renews. */
  ghost predicate Next(s: LogState, s': LogState, l: Label) {
    match l
    case Append(generics, stables, completeFeed, e) =>
      && Prepares(s.nodes, s.target, completeFeed, generics, stables, s.generation + 1, s'.nodes, e)
      && s' == LogState(s.store + {e.chunk}, s'.nodes, Some(e.domain), s.generation + 1)
    case Compact(completeFeed) =>
      && s.target.Some? && |s.target.value.chunks| >= 2 && AllStored(s.store, s.target.value.chunks)
      && SortFrames(Flat(s.target.value.chunks)) != []
      && s' == LogState(s.store + {SortFrames(Flat(s.target.value.chunks))}, s.nodes,
                        Some(Compacted(s.target.value, completeFeed)), s.generation + 1)
    case Trim(before) =>
      && s.target.Some? && !s.target.value.complete
      && s' == s.(target := Some(TrimmedTo(s.target.value, before)), generation := s.generation + 1)
    case Other(uploaded, nodes, generation) =>
      s' == LogState(s.store + uploaded, s.nodes + nodes, s.target, s.generation + generation)
  }

  ghost predicate Behavior(trace: seq<LogState>, labels: seq<Label>) {
    && |trace| == |labels| + 1 && trace[0] == LogState({}, {}, None, 0)
    && forall k :: 0 <= k < |labels| ==> Next(trace[k], trace[k + 1], labels[k])
  }

  function Current(s: LogState): Domain {
    DomainOf(s.target, false)
  }

  lemma EmptyHolds(store: set<seq<Frame>>, complete: bool)
    ensures Holds(store, Domain(0, [], [], 0, complete, None)) && LogOf(Domain(0, [], [], 0, complete, None)) == []
  {
  }

  lemma HoldsGrows(store: set<seq<Frame>>, store': set<seq<Frame>>, d: Domain)
    requires Holds(store, d) && store <= store'
    ensures Holds(store', d)
  {
  }

  /** One operation: the log is kept or extended, the floor does not fall. */
  lemma StepHolds(s: LogState, s': LogState, l: Label)
    requires Holds(s.store, Current(s)) && Next(s, s', l)
    ensures Holds(s'.store, Current(s'))
    ensures LogOf(Current(s)) <= LogOf(Current(s'))
    ensures Current(s).trimBefore <= Current(s').trimBefore <= Current(s').headSeq
    ensures l.Compact? || l.Trim? ==> LogOf(Current(s')) == LogOf(Current(s))
  {
    hide Flat, SortFrames, Extends, Reindex, MayPrepare, Numbered, Bounded, AllStored;
    match l
    case Append(generics, stables, completeFeed, e) =>
      EmptyHolds(s.store, completeFeed);
      EmptyHolds(s.store, false);
      AppendHolds(s.store, DomainOf(s.target, completeFeed), generics, stables, s.generation + 1, e);
    case Compact(completeFeed) => CompactHolds(s.store, s.target.value, completeFeed);
    case Trim(before) => TrimHolds(s.store, s.target.value, before);
    case Other(_, _, _) => HoldsGrows(s.store, s'.store, Current(s));
  }

  /** In every reachable state segments then chunks hold 1 to head once each in
      order, and the floor is not past the head. */
  lemma {:induction false} RunHolds(trace: seq<LogState>, labels: seq<Label>, k: nat)
    requires Behavior(trace, labels) && k < |trace|
    ensures Holds(trace[k].store, Current(trace[k]))
  {
    hide Next, Holds;
    if k == 0 {
      EmptyHolds({}, false);
    } else {
      RunHolds(trace, labels, k - 1);
      StepHolds(trace[k - 1], trace[k], labels[k - 1]);
    }
  }

  /** Over a run the log is only ever extended and the floor never falls. */
  lemma {:induction false} RunGrows(trace: seq<LogState>, labels: seq<Label>, j: nat, k: nat)
    requires Behavior(trace, labels) && j <= k < |trace|
    ensures LogOf(Current(trace[j])) <= LogOf(Current(trace[k]))
    ensures Current(trace[j]).trimBefore <= Current(trace[k]).trimBefore
  {
    hide Next, Holds, LogOf;
    if j < k {
      RunGrows(trace, labels, j, k - 1);
      RunHolds(trace, labels, k - 1);
      StepHolds(trace[k - 1], trace[k], labels[k - 1]);
    }
  }

  /** Whatever maintenance ran in between, a later read above the later floor
      returns what an earlier read of the same sequences returned, and then more. */
  lemma ReadsAgree(trace: seq<LogState>, labels: seq<Label>, j: nat, k: nat, from: nat)
    requires Behavior(trace, labels) && j <= k < |trace|
    requires Current(trace[k]).trimBefore == 0 || from > Current(trace[k]).trimBefore
    ensures ReadOf(Current(trace[j]), from).Ok? && ReadOf(Current(trace[k]), from).Ok?
    ensures ReadOf(Current(trace[j]), from).value <= ReadOf(Current(trace[k]), from).value
  {
    hide Behavior, Holds, ReadOf, LogOf;
    RunGrows(trace, labels, j, k);
    RunHolds(trace, labels, j);
    RunHolds(trace, labels, k);
    ReadIsSuffix(trace[j].store, Current(trace[j]), from);
    ReadIsSuffix(trace[k].store, Current(trace[k]), from);
  }
}
