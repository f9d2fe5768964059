/** Reading pages of a feed snapshot: the loops of the reader against the plain
    sequence of events the catalog's chunks hold. */
module Paging {
  import opened Words
  import opened Wrappers
  import C = Catalog
  import CP = CatalogProof
  import CT = CatalogTheorems

  const MAX_CHUNK_EVENTS: nat := 2_048
  const MAX_PAGE_EVENTS: nat := 1_024
  const MAX_PAGE_RAW_BYTES: nat := 524_288

  datatype Limits = Limits(maxEvents: nat, maxRaw: nat)

  /** What a reader takes from the bound manifest. */
  datatype View = View(catalog: Option<C.Root>, headSeq: U64, trimBefore: nat)

  datatype Page = Page(events: seq<C.Frame>, next: nat, snapshotHead: nat, rawBytes: nat, atHead: bool)

  datatype ReadError =
    | InvalidCursor(nextAtHead: nat)
    | Trimmed(resumeAt: nat)
    | EventTooLarge(position: nat, bytes: nat)
    | Integrity

  predicate ValidLimits(l: Limits) {
    1 <= l.maxEvents <= MAX_PAGE_EVENTS && 1 <= l.maxRaw <= MAX_PAGE_RAW_BYTES
  }

  function Raw(events: seq<C.Frame>): nat {
    if events == [] then 0 else Raw(events[..|events| - 1]) + |events[|events| - 1].payload|
  }

  // ---- loading a chunk -----------------------------------------------------------------

  /** A stored chunk that holds exactly the frames its catalog ref announces. */
  predicate ChunkValid(chunks: set<seq<C.Frame>>, r: C.ChunkRef, head: nat) {
    && r.chunk in chunks && r.chunk != []
    && |r.chunk| == r.eventCount <= MAX_CHUNK_EVENTS
    && (forall k :: 0 <= k < |r.chunk| ==> r.chunk[k].position == r.first + k)
    && r.first + |r.chunk| == r.last + 1 && r.last <= head && r.last < U64_MAX
    && Raw(r.chunk) == r.rawBytes <= U64_MAX
  }

  lemma {:induction false} RawPrefix(events: seq<C.Frame>, i: nat)
    requires i <= |events|
    ensures Raw(events[..i]) <= Raw(events)
  {
    if i < |events| {
      RawPrefix(events[..|events| - 1], i);
      assert events[..|events| - 1][..i] == events[..i];
    } else {
      assert events[..i] == events;
    }
  }

  /** load_chunk: one pass over the frames. */
  method LoadChunk(chunks: set<seq<C.Frame>>, r: C.ChunkRef, head: nat)
    returns (frames: Result<seq<C.Frame>, ReadError>)
    ensures frames == if ChunkValid(chunks, r, head) then Ok(r.chunk) else Err(Integrity)
  {
    hide Raw;
    if r.chunk !in chunks || r.chunk == [] || |r.chunk| != r.eventCount || |r.chunk| > MAX_CHUNK_EVENTS {
      return Err(Integrity);
    }
    var raw, expected := 0, r.first as nat;
    NothingRaw(r.chunk[..0]);
    for i := 0 to |r.chunk|
      invariant expected == r.first + i && expected <= U64_MAX
      invariant forall k :: 0 <= k < i ==> r.chunk[k].position == r.first + k
      invariant i > 0 ==> r.first + i - 1 <= head && r.first + i - 1 <= r.last
      invariant raw == Raw(r.chunk[..i]) <= U64_MAX
    {
      var frame := r.chunk[i];
      assert r.chunk[..i + 1] == r.chunk[..i] + [frame];
      RawSnoc(r.chunk[..i], frame);
      RawPrefix(r.chunk, i + 1);
      if frame.position != expected || frame.position > head || frame.position > r.last {
        return Err(Integrity);
      }
      if raw + |frame.payload| > U64_MAX {
        return Err(Integrity);
      }
      raw := raw + |frame.payload|;
      if expected == U64_MAX {
        return Err(Integrity);
      }
      expected := expected + 1;
    }
    assert r.chunk[..|r.chunk|] == r.chunk;
    if expected == 0 || expected - 1 != r.last || raw != r.rawBytes {
      return Err(Integrity);
    }
    return Ok(r.chunk);
  }

  // ---- the page a sequence of events owes --------------------------------------------------

  /** n events are the longest run from the front within both limits. */
  predicate Longest(rest: seq<C.Frame>, n: nat, l: Limits) {
    && n <= |rest| && n <= l.maxEvents && Raw(rest[..n]) <= l.maxRaw
    && (n == |rest| || n == l.maxEvents || Raw(rest[..n + 1]) > l.maxRaw)
  }

  /** The page at a cursor inside the events, whose positions count from 1. */
  predicate IsPage(all: seq<C.Frame>, cursor: nat, l: Limits, r: Result<Page, ReadError>)
    requires 1 <= cursor <= |all|
  {
    var rest := all[cursor - 1..];
    if |rest[0].payload| > l.maxRaw then r == Err(EventTooLarge(cursor, |rest[0].payload|))
    else
      && r.Ok?
      && var n := |r.value.events|;
         Longest(rest, n, l) && r == Ok(Page(rest[..n], cursor + n, |all|, Raw(rest[..n]), cursor + n == |all| + 1))
  }

  function Events(refs: seq<C.ChunkRef>): seq<C.Frame> {
    if refs == [] then [] else Events(refs[..|refs| - 1]) + refs[|refs| - 1].chunk
  }

  /** The snapshot stands for a sequence of chunk refs, all stored and valid. */
  ghost predicate Stands(cat: set<C.Digest>, chunks: set<seq<C.Frame>>, view: View, refs: seq<C.ChunkRef>) {
    && CT.Represents(cat, view.catalog, refs)
    && view.trimBefore == 0
    && view.headSeq == (if refs == [] then 0 else CP.Last(refs).last)
    && (forall k :: 0 <= k < |refs| ==> ChunkValid(chunks, refs[k], view.headSeq))
  }

  lemma EventsSnoc(refs: seq<C.ChunkRef>, r: C.ChunkRef)
    ensures Events(refs + [r]) == Events(refs) + r.chunk
  {
    assert (refs + [r])[..|refs|] == refs;
  }

  lemma SpansChunk(chunks: set<seq<C.Frame>>, r: C.ChunkRef, head: nat)
    requires ChunkValid(chunks, r, head)
    ensures r.first + |r.chunk| == r.last + 1 && r.chunk != [] && r.last <= head
  {
  }

  lemma {:induction false} EventsLength(refs: seq<C.ChunkRef>, chunks: set<seq<C.Frame>>, head: nat)
    requires refs != [] && CP.Contiguous(refs) && refs[0].first == 1
    requires forall j :: 0 <= j < |refs| ==> ChunkValid(chunks, refs[j], head)
    ensures |Events(refs)| == CP.Last(refs).last
  {
    hide ChunkValid, Events;
    var init, last := refs[..|refs| - 1], refs[|refs| - 1];
    assert refs == init + [last];
    EventsSnoc(init, last);
    SpansChunk(chunks, last, head);
    if init != [] {
      CP.ContiguousSlice(refs, 0, |refs| - 1);
      assert refs[|refs| - 2 + 1].first == refs[|refs| - 2].last + 1;
      EventsLength(init, chunks, head);
    } else {
      NoEvents();
    }
  }

  lemma NoEvents()
    ensures Events([]) == []
  {
  }

  lemma {:induction false} EventsPrefix(refs: seq<C.ChunkRef>, k: nat)
    requires k <= |refs|
    ensures Events(refs[..k]) <= Events(refs)
  {
    if k < |refs| {
      EventsPrefix(refs[..|refs| - 1], k);
      assert refs[..|refs| - 1][..k] == refs[..k];
    } else {
      assert refs[..k] == refs;
    }
  }

  /** Events of the chunks before chunk k: one per sequence below its first. */
  lemma EventsBefore(refs: seq<C.ChunkRef>, chunks: set<seq<C.Frame>>, head: nat, k: nat)
    requires CP.Contiguous(refs) && k < |refs| && refs[0].first == 1
    requires forall j :: 0 <= j < |refs| ==> ChunkValid(chunks, refs[j], head)
    ensures |Events(refs[..k])| + 1 == refs[k].first
  {
    hide ChunkValid, Events;
    if k == 0 {
      assert refs[..0] == [];
      NoEvents();
    } else {
      CP.ContiguousSlice(refs, 0, k);
      EventsLength(refs[..k], chunks, head);
      assert refs[k - 1 + 1].first == refs[k - 1].last + 1;
    }
  }

  lemma InPrefix(a: seq<C.Frame>, b: seq<C.Frame>, whole: seq<C.Frame>, i: nat)
    requires a + b <= whole && i < |b|
    ensures |a| + i < |whole| && whole[|a| + i] == b[i]
  {
    assert (a + b)[|a| + i] == b[i];
  }

  /** The event at a sequence is the frame its chunk holds for it. */
  lemma EventsAt(refs: seq<C.ChunkRef>, chunks: set<seq<C.Frame>>, head: nat, k: nat, i: nat)
    requires CP.Contiguous(refs) && k < |refs| && refs[0].first == 1
    requires forall j :: 0 <= j < |refs| ==> ChunkValid(chunks, refs[j], head)
    requires i < |refs[k].chunk|
    ensures |Events(refs)| == CP.Last(refs).last
    ensures 1 <= refs[k].first && refs[k].first + i <= |Events(refs)|
    ensures Events(refs)[refs[k].first + i - 1] == refs[k].chunk[i]
  {
    hide ChunkValid, Events, CP.Contiguous;
    EventsLength(refs, chunks, head);
    EventsBefore(refs, chunks, head, k);
    EventsSnoc(refs[..k], refs[k]);
    assert refs[..k + 1] == refs[..k] + [refs[k]];
    EventsPrefix(refs, k + 1);
    InPrefix(Events(refs[..k]), refs[k].chunk, Events(refs), i);
  }

  // ---- reading a page ------------------------------------------------------------------------

  function FindRef(refs: seq<C.ChunkRef>, s: nat): Option<C.ChunkRef> {
    if refs == [] then None
    else if refs[0].first <= s <= refs[0].last then Some(refs[0])
    else FindRef(refs[1..], s)
  }

  lemma {:induction false} FindRefFinds(refs: seq<C.ChunkRef>, s: nat)
    requires CP.Contiguous(refs) && CT.Covers(refs, s)
    ensures FindRef(refs, s).Some? && FindRef(refs, s).value in refs
    ensures FindRef(refs, s).value.first <= s <= FindRef(refs, s).value.last
  {
    if s > refs[0].last {
      if |refs| > 1 {
        CP.ContiguousSlice(refs, 1, |refs|);
        assert refs[0 + 1].first == refs[0].last + 1;
      }
      FindRefFinds(refs[1..], s);
    }
  }

  /** Seeking finds the stored chunk that holds a sequence. */
  lemma SeekFindsChunk(cat: set<C.Digest>, chunks: set<seq<C.Frame>>, view: View, refs: seq<C.ChunkRef>, s: nat)
    requires Stands(cat, chunks, view, refs) && 1 <= s <= view.headSeq
    ensures var g := C.SeekSpec(cat, view.catalog, s);
            && g.Ok? && g.value.Some? && FindRef(g.value.value, s).Some?
            && FindRef(g.value.value, s).value in refs
            && ChunkValid(chunks, FindRef(g.value.value, s).value, view.headSeq)
  {
    hide C.SeekSpec, ChunkValid, CP.Build, CP.Stored;
    CT.SeekExact(cat, view.catalog, refs, s);
    var g := C.SeekSpec(cat, view.catalog, s).value.value;
    var i: nat :| CT.SliceAt(refs, g, i);
    CP.ContiguousSlice(refs, i, i + |g|);
    FindRefFinds(g, s);
  }

  lemma RawSnoc(events: seq<C.Frame>, f: C.Frame)
    ensures Raw(events + [f]) == Raw(events) + |f.payload|
  {
    assert (events + [f])[..|events|] == events;
  }

  /** The frames of a chunk from a position on. */
  function Tail(r: C.ChunkRef, s: nat): (t: seq<C.Frame>)
    requires r.first <= s <= r.first + |r.chunk|
    ensures |t| == r.first + |r.chunk| - s
  {
    r.chunk[s - r.first..]
  }

  /** What was there and the frames taken since. */
  function Took(r: C.ChunkRef, before: seq<C.Frame>, from: nat, expected: nat): (t: seq<C.Frame>)
    requires r.first <= from <= expected <= r.first + |r.chunk|
    ensures |t| == |before| + (expected - from)
  {
    before + Tail(r, from)[..expected - from]
  }

  lemma TookNothing(r: C.ChunkRef, before: seq<C.Frame>, from: nat)
    requires r.first <= from <= r.first + |r.chunk|
    ensures Took(r, before, from, from) == before
  {
  }

  lemma TookSnoc(r: C.ChunkRef, before: seq<C.Frame>, from: nat, s: nat)
    requires r.first <= from <= s < r.first + |r.chunk|
    ensures Took(r, before, from, s + 1) == Took(r, before, from, s) + [r.chunk[s - r.first]]
    ensures Tail(r, s)[0] == r.chunk[s - r.first]
  {
    TailSnoc(r, from, s);
  }

  /** The loop over one chunk's frames: it skips to the expected position, then
      takes frames until the chunk ends, the page is full, or a frame does not
      fit. It reports a finished page or an event too large for any page. */
  method TakeFrames(r: C.ChunkRef, head: nat, l: Limits, before: seq<C.Frame>, from: nat)
    returns (events: seq<C.Frame>, raw: nat, expected: nat, stop: Option<Result<Page, ReadError>>)
    requires ValidLimits(l) && |before| < l.maxEvents && Raw(before) <= l.maxRaw
    requires r.first <= from <= r.last && r.first + |r.chunk| == r.last + 1 && r.last <= head && r.last < U64_MAX
    requires forall k :: 0 <= k < |r.chunk| ==> r.chunk[k].position == r.first + k
    ensures from <= expected <= r.last + 1 && raw == Raw(events) <= l.maxRaw && |events| <= l.maxEvents
    ensures events == Took(r, before, from, expected)
    ensures stop.None? ==> from < expected && (expected == r.last + 1 || |events| == l.maxEvents)
    ensures stop.Some? ==> expected <= r.last && Stopped(r, head, l, events, raw, expected, stop.value)
  {
    hide Raw, Tail, Took, Stopped;
    events, raw, expected, stop := before, Raw(before), from, None;
    TookNothing(r, before, from);
    for i := 0 to |r.chunk|
      invariant from <= expected <= r.last + 1 && |events| < l.maxEvents && raw == Raw(events) <= l.maxRaw
      invariant events == Took(r, before, from, expected)
      invariant if r.first + i <= from then expected == from else expected == r.first + i
    {
      var frame := r.chunk[i];
      if frame.position >= expected {
        TookSnoc(r, before, from, expected);
        var n := |frame.payload|;
        StopsAt(r, head, l, events, raw, expected);
        if events == [] && n > l.maxRaw {
          stop := Some(Err(EventTooLarge(frame.position, n)));
          return;
        }
        if events != [] && raw + n > l.maxRaw {
          stop := Some(Ok(Page(events, expected, head, raw, false)));
          return;
        }
        NothingRaw(events);
        RawSnoc(events, frame);
        events, raw, expected := events + [frame], raw + n, expected + 1;
        if |events| >= l.maxEvents {
          return;
        }
      }
    }
  }

  /** Why a page stopped before its chunk ended: the next frame does not fit. */
  predicate Stopped(r: C.ChunkRef, head: nat, l: Limits, events: seq<C.Frame>, raw: nat, expected: nat,
                    result: Result<Page, ReadError>)
    requires r.first <= expected < r.first + |r.chunk|
  {
    var n := |Tail(r, expected)[0].payload|;
    if events == [] then n > l.maxRaw && result == Err(EventTooLarge(expected, n))
    else raw + n > l.maxRaw && result == Ok(Page(events, expected, head, raw, false))
  }

  lemma StopsAt(r: C.ChunkRef, head: nat, l: Limits, events: seq<C.Frame>, raw: nat, expected: nat)
    requires r.first <= expected < r.first + |r.chunk|
    ensures var n := |r.chunk[expected - r.first].payload|;
            && (events == [] && n > l.maxRaw ==>
                Stopped(r, head, l, events, raw, expected, Err(EventTooLarge(expected, n))))
            && (events != [] && raw + n > l.maxRaw ==>
                  Stopped(r, head, l, events, raw, expected, Ok(Page(events, expected, head, raw, false))))
  {
    TailSnoc(r, expected, expected);
  }

  lemma NothingRaw(events: seq<C.Frame>)
    ensures events == [] ==> Raw(events) == 0
  {
  }

  lemma TailSnoc(r: C.ChunkRef, from: nat, s: nat)
    requires r.first <= from <= s < r.first + |r.chunk|
    ensures Tail(r, from)[..s + 1 - from] == Tail(r, from)[..s - from] + [r.chunk[s - r.first]]
    ensures Tail(r, s)[0] == r.chunk[s - r.first]
  {
  }

  /** read_page_once against one snapshot. Outside the log it answers by the
      cursor alone; inside, on any catalog and chunks that stand for refs, the
      page is the longest run from the cursor within both limits. */
  method ReadPageOnce(cat: set<C.Digest>, chunks: set<seq<C.Frame>>, snapshot: Option<View>, cursor: nat, l: Limits,
                      ghost refs: seq<C.ChunkRef>)
    returns (r: Result<Page, ReadError>)
    requires ValidLimits(l)
    ensures snapshot.None? ==> r == if cursor == 1 then Ok(Page([], 1, 0, 0, true)) else Err(InvalidCursor(1))
    ensures snapshot.Some? && snapshot.value.headSeq == U64_MAX ==> r == Err(Integrity)
    ensures snapshot.Some? && snapshot.value.headSeq < U64_MAX ==>
              var head, trim := snapshot.value.headSeq, snapshot.value.trimBefore;
              && (cursor == 0 || cursor > head + 1 ==> r == Err(InvalidCursor(head + 1)))
              && (1 <= cursor <= head + 1 && trim > 0 && cursor <= trim ==>
                    r == if trim >= U64_MAX then Err(Integrity) else Err(Trimmed(trim + 1)))
              && (cursor == head + 1 && trim < cursor ==> r == Ok(Page([], cursor, head, 0, true)))
    ensures snapshot.Some? && Stands(cat, chunks, snapshot.value, refs)
            && 1 <= cursor <= snapshot.value.headSeq < U64_MAX ==>
              |Events(refs)| == snapshot.value.headSeq && IsPage(Events(refs), cursor, l, r)
  {
    hide Stands, ChunkValid, C.SeekSpec, Events, IsPage, Tail;
    if snapshot.None? {
      return if cursor == 1 then Ok(Page([], cursor, 0, 0, true)) else Err(InvalidCursor(1));
    }
    var view := snapshot.value;
    var head: nat := view.headSeq;
    if head == U64_MAX {
      return Err(Integrity);
    }
    if cursor == 0 || cursor > head + 1 {
      return Err(InvalidCursor(head + 1));
    }
    if view.trimBefore > 0 && cursor <= view.trimBefore {
      NeverTrimmed(cat, chunks, view, refs);
      return if view.trimBefore >= U64_MAX then Err(Integrity) else Err(Trimmed(view.trimBefore + 1));
    }
    if cursor == head + 1 {
      return Ok(Page([], cursor, head, 0, true));
    }
    r := ReadInside(cat, chunks, view, cursor, l, refs);
  }

  lemma NeverTrimmed(cat: set<C.Digest>, chunks: set<seq<C.Frame>>, view: View, refs: seq<C.ChunkRef>)
    ensures Stands(cat, chunks, view, refs) ==> view.trimBefore == 0
  {
  }

  /** What the outer loop has gathered so far. */
  ghost predicate Gathered(all: seq<C.Frame>, cursor: nat, expected: nat, events: seq<C.Frame>) {
    1 <= cursor <= expected <= |all| + 1 && events == all[cursor - 1..expected - 1]
  }

  lemma StartGathering(cat: set<C.Digest>, chunks: set<seq<C.Frame>>, view: View, refs: seq<C.ChunkRef>, cursor: nat)
    requires 1 <= cursor <= view.headSeq
    ensures Raw([]) == 0
    ensures Stands(cat, chunks, view, refs) ==>
            |Events(refs)| == view.headSeq && Gathered(Events(refs), cursor, cursor, [])
  {
    if Stands(cat, chunks, view, refs) {
      EventsAt(refs, chunks, view.headSeq, 0, 0);
    }
  }

  lemma FoundCovers(refs: seq<C.ChunkRef>, s: nat)
    requires FindRef(refs, s).Some?
    ensures FindRef(refs, s).value.first <= s <= FindRef(refs, s).value.last
  {
  }

  /** The frames of a catalogued chunk are the log's events at its positions. */
  lemma TailIsLog(cat: set<C.Digest>, chunks: set<seq<C.Frame>>, view: View, refs: seq<C.ChunkRef>, r: C.ChunkRef,
                  from: nat)
    requires Stands(cat, chunks, view, refs) && r in refs && r.first <= from <= r.last + 1
    requires r.first + |r.chunk| == r.last + 1
    ensures r.last <= |Events(refs)| == view.headSeq && r.first >= 1
    ensures Tail(r, from) == Events(refs)[from - 1..r.last]
  {
    hide CT.Represents, ChunkValid;
    var k :| 0 <= k < |refs| && refs[k] == r;
    RefsAreContiguous(cat, view.catalog, refs);
    assert ChunkValid(chunks, r, view.headSeq);
    ChunkFits(chunks, r, view.headSeq);
    EventsAt(refs, chunks, view.headSeq, k, |r.chunk| - 1);
    forall i | 0 <= i < |Tail(r, from)| ensures Tail(r, from)[i] == Events(refs)[from - 1 + i] {
      EventsAt(refs, chunks, view.headSeq, k, from - r.first + i);
    }
  }

  lemma ChunkFits(chunks: set<seq<C.Frame>>, r: C.ChunkRef, head: nat)
    requires ChunkValid(chunks, r, head)
    ensures r.chunk != [] && r.last <= head
  {
  }

  lemma RefsAreContiguous(cat: set<C.Digest>, catalog: Option<C.Root>, refs: seq<C.ChunkRef>)
    requires CT.Represents(cat, catalog, refs) && refs != []
    ensures CP.Contiguous(refs) && refs[0].first == 1
  {
  }

  lemma TakesFromLog(cat: set<C.Digest>, chunks: set<seq<C.Frame>>, view: View, refs: seq<C.ChunkRef>, r: C.ChunkRef,
                     cursor: nat, from: nat, expected: nat, before: seq<C.Frame>, events: seq<C.Frame>)
    requires Stands(cat, chunks, view, refs) && r in refs && r.first <= from <= expected <= r.last + 1
    requires r.first + |r.chunk| == r.last + 1 && Gathered(Events(refs), cursor, from, before)
    requires events == Took(r, before, from, expected)
    ensures Gathered(Events(refs), cursor, expected, events)
  {
    hide Stands, Events;
    TailIsLog(cat, chunks, view, refs, r, from);
    var all := Events(refs);
    assert all[from - 1..r.last][..expected - from] == all[from - 1..expected - 1];
    assert all[cursor - 1..from - 1] + all[from - 1..expected - 1] == all[cursor - 1..expected - 1];
  }

  /** A page that stopped because the next frame does not fit is the longest. */
  lemma StopsPage(cat: set<C.Digest>, chunks: set<seq<C.Frame>>, view: View, refs: seq<C.ChunkRef>, r: C.ChunkRef,
                  cursor: nat, expected: nat, events: seq<C.Frame>, raw: nat, l: Limits,
                  result: Result<Page, ReadError>)
    requires Stands(cat, chunks, view, refs) && r in refs && r.first <= expected <= r.last
    requires r.first + |r.chunk| == r.last + 1 && Gathered(Events(refs), cursor, expected, events)
    requires raw == Raw(events) <= l.maxRaw && |events| <= l.maxEvents && cursor <= view.headSeq
    requires Stopped(r, view.headSeq, l, events, raw, expected, result)
    ensures |Events(refs)| == view.headSeq && cursor <= |Events(refs)| && IsPage(Events(refs), cursor, l, result)
  {
    hide Stands, Events, Raw, Tail;
    TailIsLog(cat, chunks, view, refs, r, expected);
    var all := Events(refs);
    var rest, n := all[cursor - 1..], |events|;
    var f := all[expected - 1];
    assert Tail(r, expected)[0] == f;
    assert rest[..n] == events && rest[n] == f;
    NothingRaw(events);
    if events == [] {
      assert rest[0] == f;
    } else {
      assert rest[..n + 1] == events + [f];
      RawSnoc(events, f);
      FirstFits(events, l.maxRaw);
      assert rest[0] == events[0];
    }
  }

  lemma {:induction false} FirstFits(events: seq<C.Frame>, max: nat)
    requires events != [] && Raw(events) <= max
    ensures |events[0].payload| <= max
  {
    if |events| > 1 {
      FirstFits(events[..|events| - 1], max);
    }
  }

  /** A page that ran to the head or to its event limit is the longest. */
  lemma FullPage(all: seq<C.Frame>, cursor: nat, expected: nat, events: seq<C.Frame>, raw: nat, l: Limits)
    requires ValidLimits(l) && 1 <= cursor <= |all| && Gathered(all, cursor, expected, events)
    requires raw == Raw(events) <= l.maxRaw && |events| <= l.maxEvents
    requires expected == |all| + 1 || |events| == l.maxEvents
    ensures IsPage(all, cursor, l, Ok(Page(events, expected, |all|, raw, expected == |all| + 1)))
  {
    var rest, n := all[cursor - 1..], |events|;
    assert rest[..n] == events;
    FirstFits(events, l.maxRaw);
    assert rest[0] == events[0];
  }

  method ReadInside(cat: set<C.Digest>, chunks: set<seq<C.Frame>>, view: View, cursor: nat, l: Limits,
                    ghost refs: seq<C.ChunkRef>)
    returns (r: Result<Page, ReadError>)
    requires ValidLimits(l) && 1 <= cursor <= view.headSeq < U64_MAX
    ensures Stands(cat, chunks, view, refs) ==> |Events(refs)| == view.headSeq && IsPage(Events(refs), cursor, l, r)
  {
    hide Stands, C.SeekSpec, Events, IsPage, Tail, Raw, Gathered, Took, Stopped;
    ghost var good, all := Stands(cat, chunks, view, refs), Events(refs);
    var head: nat := view.headSeq;
    var events: seq<C.Frame>, raw, expected := [], 0, cursor;
    StartGathering(cat, chunks, view, refs, cursor);
    while expected <= head && |events| < l.maxEvents
      invariant cursor <= expected <= head + 1 && |events| <= l.maxEvents && raw == Raw(events) <= l.maxRaw
      invariant |events| == expected - cursor
      invariant good ==> |all| == head && Gathered(all, cursor, expected, events)
      decreases head + 1 - expected
    {
      if good {
        SeekFindsChunk(cat, chunks, view, refs, expected);
      }
      var leaf := C.SeekLeaf(cat, view.catalog, expected);
      if leaf.Err? || leaf.value.None? {
        return Err(Integrity);
      }
      var found := FindRef(leaf.value.value, expected);
      if found.None? {
        return Err(Integrity);
      }
      var ref := found.value;
      FoundCovers(leaf.value.value, expected);
      var frames := LoadChunk(chunks, ref, head);
      if frames.Err? {
        return Err(Integrity);
      }
      ghost var from, before := expected, events;
      var stop: Option<Result<Page, ReadError>>;
      events, raw, expected, stop := TakeFrames(ref, head, l, events, expected);
      assert stop.None? ==> expected > ref.last || |events| == l.maxEvents;
      if good {
        TakesFromLog(cat, chunks, view, refs, ref, cursor, from, expected, before, events);
      }
      if stop.Some? {
        if good {
          StopsPage(cat, chunks, view, refs, ref, cursor, expected, events, raw, l, stop.value);
        }
        return stop.value;
      }
    }
    if good {
      FullPage(all, cursor, expected, events, raw, l);
    }
    return Ok(Page(events, expected, head, raw, expected == head + 1));
  }
}
