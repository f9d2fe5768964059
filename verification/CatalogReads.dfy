/** What the catalog accepts and writes on any store, well made or not. */
module CatalogReads {
  import opened Wrappers
  import opened Catalog

  /** A stored node that may stand on the way to a sequence: its parts follow one
      another without a gap, each as long as it says. */
  predicate Stands(store: set<Digest>, d: Digest) {
    && d in store
    && match d.node
       case Leaf(refs) =>
         && 1 <= |refs| <= 32
         && (forall k :: 0 <= k < |refs| ==>
               1 <= refs[k].first <= refs[k].last && refs[k].eventCount == refs[k].last - refs[k].first + 1)
         && (forall k :: 0 < k < |refs| ==> refs[k].first == refs[k - 1].last + 1)
       case Branch(height, children) =>
         && 1 <= |children| <= 32 && 1 <= height <= 8
         && (forall k :: 0 <= k < |children| ==>
               && 1 <= children[k].first <= children[k].last
               && 1 <= children[k].count <= children[k].last - children[k].first + 1)
         && (forall k :: 0 < k < |children| ==> children[k].first == children[k - 1].last + 1)
  }

  lemma LoadsExactly(store: set<Digest>, d: Digest)
    ensures LoadNode(store, d) == if Stands(store, d) then Ok(d.node) else Err(Integrity)
  {
    match d.node
    case Leaf(refs) =>
      assert forall k :: 0 < k < |refs| ==> refs[k - 1 + 1] == refs[k];
    case Branch(_, children) =>
      assert forall k :: 0 < k < |children| ==> children[k - 1 + 1] == children[k];
  }

  /** The way to a sequence from a depth: each node is a child of the one before
      whose range covers it, and the leaf at the end covers it. */
  predicate Way(store: set<Digest>, depth: nat, s: nat, way: seq<Digest>)
    decreases |way|
  {
    && way != [] && depth <= 8 && Stands(store, way[0])
    && if |way| == 1 then
         way[0].node.Leaf? && way[0].node.refs[0].first <= s <= way[0].node.refs[|way[0].node.refs| - 1].last
       else
         && way[0].node.Branch?
         && (exists c :: c in way[0].node.children && c.first <= s <= c.last && c.digest == way[1])
         && Way(store, depth + 1, s, way[1..])
  }

  lemma {:induction false} Apart(children: seq<Child>, j: nat, k: nat)
    requires j < k < |children| && forall i :: 0 <= i < |children| ==> children[i].first <= children[i].last
    requires forall i :: 0 < i < |children| ==> children[i].first == children[i - 1].last + 1
    ensures children[j].last < children[k].first
  {
    if j + 1 < k {
      Apart(children, j, k - 1);
    }
  }

  lemma {:induction false} CoverIsIn(children: seq<Child>, s: nat)
    ensures match FindCover(children, s)
            case Some(c) => c in children && c.first <= s <= c.last
            case None => forall c :: c in children ==> !(c.first <= s <= c.last)
  {
    if children != [] {
      assert children == [children[0]] + children[1..];
      CoverIsIn(children[1..], s);
    }
  }

  /** At most one child of a node covers a sequence. */
  lemma CoverIsOne(store: set<Digest>, d: Digest, s: nat, c: Child)
    requires Stands(store, d) && d.node.Branch? && c in d.node.children && c.first <= s <= c.last
    ensures FindCover(d.node.children, s) == Some(c)
  {
    var children := d.node.children;
    CoverIsIn(children, s);
    var found := FindCover(children, s).value;
    var j, k :| 0 <= j < |children| && children[j] == c && 0 <= k < |children| && children[k] == found;
    if j < k {
      Apart(children, j, k);
    } else if k < j {
      Apart(children, k, j);
    }
  }

  lemma {:induction false} SeekHasWay(store: set<Digest>, digest: Digest, depth: nat, s: nat) returns (way: seq<Digest>)
    requires SeekFrom(store, digest, depth, s).Ok?
    ensures way != [] && way[0] == digest && Way(store, depth, s, way)
    ensures way[|way| - 1].node.Leaf?
    ensures SeekFrom(store, digest, depth, s) == Ok(Some(way[|way| - 1].node.refs))
    decreases MAX_HEIGHT + 1 - depth
  {
    hide LoadNode, FindCover, Stands;
    LoadsExactly(store, digest);
    way := [digest];
    if digest.node.Branch? {
      CoverIsIn(digest.node.children, s);
      var c := FindCover(digest.node.children, s).value;
      var rest := SeekHasWay(store, c.digest, depth + 1, s);
      way := [digest] + rest;
      assert way[1..] == rest;
    }
  }

  lemma {:induction false} WayIsSought(store: set<Digest>, way: seq<Digest>, depth: nat, s: nat)
    requires Way(store, depth, s, way)
    ensures way[|way| - 1].node.Leaf?
    ensures SeekFrom(store, way[0], depth, s) == Ok(Some(way[|way| - 1].node.refs))
    decreases |way|
  {
    hide LoadNode, FindCover, Stands;
    LoadsExactly(store, way[0]);
    if |way| > 1 {
      var c :| c in way[0].node.children && c.first <= s <= c.last && c.digest == way[1];
      CoverIsOne(store, way[0], s, c);
      WayIsSought(store, way[1..], depth + 1, s);
    }
  }

  lemma {:induction false} SeekFails(store: set<Digest>, digest: Digest, depth: nat, s: nat)
    ensures SeekFrom(store, digest, depth, s).Err? ==> SeekFrom(store, digest, depth, s) == Err(Integrity)
    decreases MAX_HEIGHT + 1 - depth
  {
    hide Valid, FindCover;
    if depth <= MAX_HEIGHT && digest.node.Branch? {
      var c := FindCover(digest.node.children, s);
      if c.Some? {
        SeekFails(store, c.value.digest, depth + 1, s);
      }
    }
  }

  /** Some way leads to a leaf of these refs. */
  ghost predicate Reached(store: set<Digest>, digest: Digest, s: nat, refs: seq<ChunkRef>) {
    exists way: seq<Digest> ::
      way != [] && way[0] == digest && Way(store, 0, s, way) && way[|way| - 1].node == Leaf(refs)
  }

  /** On any store: a seek finds nothing exactly outside the root's range; inside
      it finds the refs of a leaf exactly when a way of well-made nodes leads there,
      and anything else is an integrity failure. */
  lemma SeekOnAnyStore(store: set<Digest>, state: Option<Root>, s: nat, refs: seq<ChunkRef>)
    ensures var r := SeekSpec(store, state, s);
            && (r == Ok(None) <==> state.None? || !(state.value.first <= s <= state.value.last))
            && (r == Ok(Some(refs))
                <==> && state.Some? && state.value.first <= s <= state.value.last
                     && Reached(store, state.value.digest, s, refs))
            && (r.Err? ==> r == Err(Integrity))
  {
    hide SeekFrom, Way;
    if state.Some? {
      var digest := state.value.digest;
      SeekFails(store, digest, 0, s);
      if SeekFrom(store, digest, 0, s).Ok? {
        var way := SeekHasWay(store, digest, 0, s);
      }
      if Reached(store, digest, s, refs) {
        var way: seq<Digest> :|
          way != [] && way[0] == digest && Way(store, 0, s, way) && way[|way| - 1].node == Leaf(refs);
        WayIsSought(store, way, 0, s);
      }
    }
  }

  // ---- what an append writes ------------------------------------------------------------

  /** Everything new in a store is well made. */
  predicate GrowsGood(store: set<Digest>, store': set<Digest>) {
    store <= store' && forall d :: d in store' && d !in store ==> Valid(d.node)
  }

  lemma LeafGrowsGood(store: set<Digest>, digest: Digest, refs: seq<ChunkRef>, chunk: ChunkRef)
    requires refs != []
    ensures GrowsGood(store, AppendLeaf(store, digest, refs, chunk).store)
  {
    hide Valid;
  }

  lemma GrownGrowsGood(store: set<Digest>, h: nat, children: seq<Child>, child: Digest, childHeight: nat)
    requires children != []
    ensures GrowsGood(store, AppendGrown(store, h, children, child, childHeight).store)
  {
    hide Valid;
  }

  lemma SplitGrowsGood(store: set<Digest>, h: nat, children: seq<Child>, left: Child, right: Child, childHeight: nat)
    requires 1 <= |children| <= MAX_ITEMS
    ensures GrowsGood(store, AppendSplit(store, h, children, left, right, childHeight).store)
  {
    hide Valid;
  }

  lemma {:induction false} AppendAtGrowsGood(store: set<Digest>, digest: Digest, height: nat, chunk: ChunkRef)
    ensures GrowsGood(store, AppendAt(store, digest, height, chunk).store)
    decreases height
  {
    hide AppendLeaf, AppendGrown, AppendSplit;
    match digest.node
    case Leaf(refs) =>
      if refs != [] {
        LeafGrowsGood(store, digest, refs, chunk);
      }
    case Branch(h, children) =>
      if 1 <= |children| <= MAX_ITEMS && 1 <= h == height {
        AppendAtGrowsGood(store, children[|children| - 1].digest, h - 1, chunk);
        var w := AppendAt(store, children[|children| - 1].digest, h - 1, chunk);
        match w.result
        case Ok(Grown(d, gh)) => GrownGrowsGood(w.store, h, children, d, gh);
        case Ok(SplitUp(left, right, sh)) => SplitGrowsGood(w.store, h, children, left, right, sh);
        case Err(_) =>
      }
  }

  /** On any store: every node an append stores is well made. */
  lemma AppendStoresGood(store: set<Digest>, state: Option<Root>, chunk: ChunkRef)
    ensures var w := Append(store, state, chunk);
            forall d :: d in w.store && d !in store ==> Stands(w.store, d)
  {
    hide AppendAt, Stands, Valid;
    if state.Some? {
      AppendAtGrowsGood(store, state.value.digest, state.value.height, chunk);
    }
    var w := Append(store, state, chunk);
    assert GrowsGood(store, w.store);
    forall d | d in w.store && d !in store ensures Stands(w.store, d) {
      LoadsExactly(w.store, d);
    }
  }

  /** The right spine of a tree: well-made nodes whose heights count down to a
      leaf. */
  predicate Spine(store: set<Digest>, d: Digest, height: nat)
    decreases height
  {
    && Stands(store, d)
    && match d.node
       case Leaf(_) => height == 0
       case Branch(h, children) => h == height && Spine(store, children[|children| - 1].digest, height - 1)
  }

  lemma {:induction false} AppendAtFollows(store: set<Digest>, digest: Digest, height: nat, chunk: ChunkRef)
    ensures AppendAt(store, digest, height, chunk).result.Ok? ==> Spine(store, digest, height)
    decreases height
  {
    hide AppendLeaf, AppendGrown, AppendSplit, Valid, LoadNode, Stands;
    LoadsExactly(store, digest);
    if Stands(store, digest) && digest.node.Branch? && digest.node.height == height {
      StoodBranch(store, digest);
      var children := digest.node.children;
      AppendAtFollows(store, children[|children| - 1].digest, height - 1, chunk);
    }
  }

  lemma StoodBranch(store: set<Digest>, d: Digest)
    requires Stands(store, d) && d.node.Branch?
    ensures 1 <= |d.node.children| <= 32 && 1 <= d.node.height <= 8
  {
  }

  /** On any store: an append succeeds only with the next chunk, under a right spine
      of the root's height. */
  lemma AppendFollowsSpine(store: set<Digest>, root: Root, chunk: ChunkRef)
    requires Append(store, Some(root), chunk).result.Ok?
    ensures 1 <= chunk.first <= chunk.last && chunk.eventCount == chunk.last - chunk.first + 1
    ensures chunk.first == root.last + 1 && Spine(store, root.digest, root.height)
  {
    hide AppendAt, Spine;
    AppendAtFollows(store, root.digest, root.height, chunk);
  }
}
