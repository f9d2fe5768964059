/** What following pages gives, and that every reachable feed state can be paged. */
module PagingTheorems {
  import opened Words
  import opened Wrappers
  import C = Catalog
  import CP = CatalogProof
  import CT = CatalogTheorems
  import H = Hamt
  import opened Paging
  import Feed
  import FI = FeedInv
  import FS = FeedSteps
  import FT = FeedTheorems
  import FP = FeedPromises

  // ---- one page for each cursor and limits --------------------------------------------------

  function LongestFrom(rest: seq<C.Frame>, n: nat, l: Limits): (m: nat)
    requires n <= |rest| && n <= l.maxEvents && Raw(rest[..n]) <= l.maxRaw
    ensures Longest(rest, m, l) && m >= n
    decreases |rest| - n
  {
    if n == |rest| || n == l.maxEvents || Raw(rest[..n + 1]) > l.maxRaw then n else LongestFrom(rest, n + 1, l)
  }

  lemma LongestIsUnique(rest: seq<C.Frame>, m: nat, n: nat, l: Limits)
    requires Longest(rest, m, l) && Longest(rest, n, l)
    ensures m == n
  {
    if m < n {
      assert rest[..n][..m + 1] == rest[..m + 1];
      RawPrefix(rest[..n], m + 1);
    } else if n < m {
      assert rest[..m][..n + 1] == rest[..n + 1];
      RawPrefix(rest[..m], n + 1);
    }
  }

  function PageAt(all: seq<C.Frame>, cursor: nat, l: Limits): (r: Result<Page, ReadError>)
    requires 1 <= cursor <= |all|
  {
    var rest := all[cursor - 1..];
    if |rest[0].payload| > l.maxRaw then Err(EventTooLarge(cursor, |rest[0].payload|))
    else
      assert rest[..0] == [];
      var n := LongestFrom(rest, 0, l);
      Ok(Page(rest[..n], cursor + n, |all|, Raw(rest[..n]), cursor + n == |all| + 1))
  }

  /** The page a cursor owes exists and is the only one. */
  lemma PageIsUnique(all: seq<C.Frame>, cursor: nat, l: Limits, r: Result<Page, ReadError>)
    requires 1 <= cursor <= |all|
    ensures IsPage(all, cursor, l, r) <==> r == PageAt(all, cursor, l)
  {
    var rest := all[cursor - 1..];
    if |rest[0].payload| <= l.maxRaw {
      assert rest[..0] == [];
      var n := LongestFrom(rest, 0, l);
      assert |rest[..n]| == n;
      if IsPage(all, cursor, l, r) {
        LongestIsUnique(rest, |r.value.events|, n, l);
      }
    }
  }

  /** A page inside the log is empty only of an event too large for it. */
  lemma PageAdvances(all: seq<C.Frame>, cursor: nat, l: Limits)
    requires 1 <= cursor <= |all| && ValidLimits(l)
    ensures PageAt(all, cursor, l).Err? <==> |all[cursor - 1].payload| > l.maxRaw
    ensures PageAt(all, cursor, l).Ok? ==>
              var p := PageAt(all, cursor, l).value;
              && cursor < p.next <= |all| + 1 && p.next == cursor + |p.events|
              && p.events == all[cursor - 1..p.next - 1] && (p.atHead <==> p.next == |all| + 1)
  {
    var rest := all[cursor - 1..];
    if |rest[0].payload| <= l.maxRaw {
      assert rest[..0] == [] && rest[..1] == [] + [rest[0]];
      RawSnoc([], rest[0]);
    }
  }

  // ---- following next cursors --------------------------------------------------------------------

  /** Pages read one after another, each from the last one's next cursor, until
      the head, an error, or the readers' patience. */
  function Follow(all: seq<C.Frame>, cursor: nat, limits: seq<Limits>): seq<Page>
    requires 1 <= cursor <= |all| + 1 && forall k :: 0 <= k < |limits| ==> ValidLimits(limits[k])
    decreases |limits|
  {
    if cursor == |all| + 1 || limits == [] then []
    else
      PageAdvances(all, cursor, limits[0]);
      match PageAt(all, cursor, limits[0])
      case Err(_) => []
      case Ok(p) => [p] + Follow(all, p.next, limits[1..])
  }

  function Concat(pages: seq<Page>): seq<C.Frame> {
    if pages == [] then [] else pages[0].events + Concat(pages[1..])
  }

  /** With limits that admit every event, following next cursors returns exactly
      the rest of the log, no gap and no repeat, in at most as many pages as there
      are events left. */
  lemma {:induction false} FollowReadsSuffix(all: seq<C.Frame>, cursor: nat, limits: seq<Limits>)
    requires 1 <= cursor <= |all| + 1 && forall k :: 0 <= k < |limits| ==> ValidLimits(limits[k])
    requires forall k, i :: 0 <= k < |limits| && 0 <= i < |all| ==> |all[i].payload| <= limits[k].maxRaw
    requires |limits| >= |all| + 1 - cursor
    ensures Concat(Follow(all, cursor, limits)) == all[cursor - 1..]
    ensures |Follow(all, cursor, limits)| <= |all| + 1 - cursor
    decreases |limits|
  {
    if cursor <= |all| {
      PageAdvances(all, cursor, limits[0]);
      var p := PageAt(all, cursor, limits[0]).value;
      FollowReadsSuffix(all, p.next, limits[1..]);
      assert Follow(all, cursor, limits) == [p] + Follow(all, p.next, limits[1..]);
      assert Concat([p] + Follow(all, p.next, limits[1..])) == p.events + Concat(Follow(all, p.next, limits[1..]));
      assert all[cursor - 1..] == all[cursor - 1..p.next - 1] + all[p.next - 1..];
    }
  }

  // ---- the feed's own snapshots --------------------------------------------------------------------

  /** The events of the log a feed's chain appended. */
  function FramesOf(log: seq<H.Entry>): seq<C.Frame> {
    seq(|log|, k requires 0 <= k < |log| => C.Frame(log[k].first, log[k].payloadHash))
  }

  lemma {:induction false} EventsOfRefs(log: seq<H.Entry>)
    ensures Events(FI.Refs(log)) == FramesOf(log)
  {
    if log != [] {
      var init := log[..|log| - 1];
      EventsOfRefs(init);
      assert FI.Refs(log)[..|log| - 1] == FI.Refs(init);
      assert FramesOf(log) == FramesOf(init) + FI.ChunkOf(log[|log| - 1]);
    } else {
      assert FI.Refs(log) == [];
    }
  }

  lemma ChunkOfIsValid(chunks: set<seq<C.Frame>>, e: H.Entry, head: nat)
    requires FI.ChunkOf(e) in chunks && e.first == e.last <= head < U64_MAX && |e.payloadHash| <= U64_MAX
    ensures ChunkValid(chunks, FI.RefOf(e), head)
  {
    assert FI.ChunkOf(e) == [] + [C.Frame(e.first, e.payloadHash)];
    RawSnoc([], C.Frame(e.first, e.payloadHash));
  }

  /** The snapshot of any reachable feed state stands for the one-event chunks of
      the log, so its pages are pages of the appended payloads in order. */
  lemma FeedCanBePaged(name: string, trace: seq<Feed.State>, labels: seq<Feed.Label>, k: nat)
    requires Feed.Behavior(name, trace, labels) && k < |trace| && FP.LogOf(trace[k], name) != []
    ensures var s, log := trace[k], FP.LogOf(trace[k], name);
            var m := Feed.Publication(s.st, name, Feed.HeadOf(s, name).value);
            && m.Ok? && m.value.Some? && m.value.value.headSeq < U64_MAX
            && (var view := View(m.value.value.catalog, m.value.value.headSeq, m.value.value.trimBefore);
                Stands(s.st.cat, s.st.chunks, view, FI.Refs(log)) && Events(FI.Refs(log)) == FramesOf(log))
  {
    hide Feed.Behavior, Feed.Publication, FI.GoodChain, FI.Log, CT.Represents, ChunkValid, CP.Size, FI.Latest;
    FT.InvAlways(name, trace, labels, k);
    var s, v := trace[k], Feed.HeadOf(trace[k], name).value;
    var h := FT.Chain(s, name);
    var log := FI.Log(h);
    FI.PublicationIsLatest(s.st, name, v);
    FS.NumberedLog(s.st, name, h);
    var d := FI.Latest(h).value;
    FS.CapacityBounds(s.st.cat, d.commit.manifest.catalog, FI.Refs(log));
    forall i | 0 <= i < |log| ensures ChunkValid(s.st.chunks, FI.Refs(log)[i], |log|) {
      PayloadsFit(s.st, name, h, i);
      ChunkOfIsValid(s.st.chunks, log[i], |log|);
    }
    EventsOfRefs(log);
  }

  /** Appended payloads are within the chunk cap. */
  lemma {:induction false} PayloadsFit(st: Feed.Stores, name: string, h: seq<Feed.Digest>, i: nat)
    requires FI.GoodChain(st, name, h) && i < |FI.Log(h)|
    ensures |FI.Log(h)[i].payloadHash| <= U64_MAX
  {
    hide FI.Describes;
    var pre := h[..|h| - 1];
    assert forall j :: 0 <= j < |FI.Log(pre)| ==> FI.Log(h)[j] == FI.Log(pre)[j];
    if i < |FI.Log(pre)| {
      PayloadsFit(st, name, pre, i);
    }
  }
}
