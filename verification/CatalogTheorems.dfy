/** What the chunk catalog promises of append and seek. */
module CatalogTheorems {
  import opened Wrappers
  import opened Catalog
  import opened CatalogProof

  // ---- appending below a node -----------------------------------------------------------

  /** What appending below a node of height h that holds refs gives: the rewritten
      node, or a full left node and a right sibling; at the top height a full node
      refuses. */
  ghost predicate Spine(w: Written<SpineUpdate>, refs: seq<ChunkRef>, chunk: ChunkRef, h: nat)
    requires refs != []
  {
    if |refs| < Size(h) then
      w.result == Ok(Grown(Digest(Build(refs + [chunk], h)), h)) && Stored(w.store, Digest(Build(refs + [chunk], h)))
    else if h == MAX_HEIGHT then w.result == Err(Rejected)
    else
      && w.result == Ok(SplitUp(ChildOf(refs, h), ChildOf([chunk], h), h))
      && Stored(w.store, Digest(Build(refs, h))) && Stored(w.store, Digest(Build([chunk], h)))
  }

  lemma LeafAppends(store: set<Digest>, refs: seq<ChunkRef>, chunk: ChunkRef)
    requires refs != [] && |refs| <= Size(0) && Contiguous(refs + [chunk]) && Stored(store, Digest(Leaf(refs)))
    ensures Spine(AppendLeaf(store, Digest(Leaf(refs)), refs, chunk), refs, chunk, 0)
  {
    ContiguousHalves(refs, [chunk]);
    if |refs| < Size(0) {
      assert Valid(Leaf(refs + [chunk]));
    } else {
      assert Valid(Leaf([chunk]));
      StoredStays(store, store + {Digest(Leaf([chunk]))}, Digest(Leaf(refs)));
    }
  }

  lemma StoredKidsInit(store: set<Digest>, c: seq<Child>)
    requires StoredKids(store, c) && c != []
    ensures StoredKids(store, c[..|c| - 1])
  {
  }

  lemma GrownStep(store: set<Digest>, h: nat, c: seq<Child>, child: Node, kids: seq<Child>)
    requires c != [] && Valid(child) && Stored(store, Digest(child)) && (child.Branch? ==> child.height == h)
    requires kids == c[..|c| - 1] + [ChildFromNode(Digest(child), child)]
    requires ValidBranch(h + 1, kids) && StoredKids(store, kids)
    ensures var w := AppendGrown(store, h + 1, c, Digest(child), h);
            w.result == Ok(Grown(Digest(Branch(h + 1, kids)), h + 1)) && Stored(w.store, Digest(Branch(h + 1, kids)))
  {
    PutBranchStores(store, h + 1, kids);
  }

  lemma GrownAppends(store: set<Digest>, refs: seq<ChunkRef>, chunk: ChunkRef, h: nat, g: seq<ChunkRef>)
    requires refs != [] && |refs| < Size(h + 1) && h < MAX_HEIGHT && Contiguous(refs + [chunk])
    requires g == Last(Groups(refs, Size(h))) && |g| < Size(h) && Contiguous(g + [chunk])
    requires StoredKids(store, Under(refs, h)) && Stored(store, Digest(Build(g + [chunk], h)))
    ensures Spine(AppendGrown(store, h + 1, Under(refs, h), Digest(Build(g + [chunk], h)), h), refs, chunk, h + 1)
  {
    hide Groups, Build, Stored, StoredKids, ValidBranch, ValidLeaf, Contiguous, Counts;
    UnderAppend(refs, chunk, h);
    BuildValid(g + [chunk], h);
    SizeStep(h + 1);
    BranchValid(refs + [chunk], h);
    StoredKidsInit(store, Under(refs, h));
    StoredKidsSnoc(store, Under(refs, h)[..|Under(refs, h)| - 1], ChildOf(g + [chunk], h));
    GrownStep(store, h, Under(refs, h), Build(g + [chunk], h), Under(refs + [chunk], h));
    BuildBranch(refs + [chunk], h);
  }

  lemma SplitStepFits(store: set<Digest>, h: nat, c: seq<Child>, left: Child, right: Child)
    requires c != [] && c[|c| - 1] == left && |c| < MAX_ITEMS && ValidBranch(h + 1, c + [right])
    requires StoredKids(store, c + [right])
    ensures var w := AppendSplit(store, h + 1, c, left, right, h);
            var node := Branch(h + 1, c + [right]);
            w.result == Ok(Grown(Digest(node), h + 1)) && Stored(w.store, Digest(node))
  {
    assert c[..|c| - 1] + [left, right] == c + [right];
    PutBranchStores(store, h + 1, c + [right]);
  }

  lemma SplitStepFull(store: set<Digest>, h: nat, c: seq<Child>, left: Child, right: Child)
    requires |c| == MAX_ITEMS && c[|c| - 1] == left && ValidBranch(h + 1, c) && ValidBranch(h + 1, [right])
    requires StoredKids(store, c) && Stored(store, right.digest)
    ensures var w := AppendSplit(store, h + 1, c, left, right, h);
            var l, r := Digest(Branch(h + 1, c)), Digest(Branch(h + 1, [right]));
            if h + 1 == MAX_HEIGHT then w.result == Err(Rejected)
            else && w.result == Ok(SplitUp(ChildFromBranch(l, c), ChildFromBranch(r, [right]), h + 1))
                 && Stored(w.store, l) && Stored(w.store, r)
  {
    var kids := c[..|c| - 1] + [left, right];
    assert kids == c + [right];
    assert kids[..MAX_ITEMS] == c && kids[MAX_ITEMS..] == [right];
    PutBranchStores(store, h + 1, c);
    var store' := store + {Digest(Branch(h + 1, c))};
    StoredStays(store, store', right.digest);
    PutBranchStores(store', h + 1, [right]);
    StoredStays(store', store' + {Digest(Branch(h + 1, [right]))}, Digest(Branch(h + 1, c)));
  }

  lemma StoredKidsSnoc(store: set<Digest>, c: seq<Child>, last: Child)
    requires StoredKids(store, c) && Stored(store, last.digest)
    ensures StoredKids(store, c + [last])
  {
  }

  lemma SplitAppends(store: set<Digest>, refs: seq<ChunkRef>, chunk: ChunkRef, h: nat, g: seq<ChunkRef>)
    requires refs != [] && |refs| < Size(h + 1) && h < MAX_HEIGHT && Contiguous(refs + [chunk])
    requires g == Last(Groups(refs, Size(h))) && |g| == Size(h) && |Under(refs, h)| < MAX_ITEMS
    requires StoredKids(store, Under(refs, h)) && Stored(store, Digest(Build([chunk], h)))
    ensures Spine(AppendSplit(store, h + 1, Under(refs, h), ChildOf(g, h), ChildOf([chunk], h), h), refs, chunk, h + 1)
  {
    hide Groups, Build, ValidBranch, StoredKids, Contiguous;
    UnderAppend(refs, chunk, h);
    SizeStep(h + 1);
    BranchValid(refs + [chunk], h);
    StoredKidsSnoc(store, Under(refs, h), ChildOf([chunk], h));
    SplitStepFits(store, h, Under(refs, h), ChildOf(g, h), ChildOf([chunk], h));
    BuildBranch(refs + [chunk], h);
  }

  lemma OneGroup(chunk: ChunkRef, h: nat)
    ensures Under([chunk], h) == [ChildOf([chunk], h)]
  {
    assert Groups([chunk], Size(h)) == [[chunk]];
  }

  lemma FullSplits(store: set<Digest>, refs: seq<ChunkRef>, chunk: ChunkRef, h: nat, g: seq<ChunkRef>)
    requires refs != [] && |refs| == Size(h + 1) && h < MAX_HEIGHT && Contiguous(refs) && Contiguous([chunk])
    requires g == Last(Groups(refs, Size(h))) && |Under(refs, h)| == MAX_ITEMS
    requires StoredKids(store, Under(refs, h)) && Stored(store, Digest(Build([chunk], h)))
    ensures Spine(AppendSplit(store, h + 1, Under(refs, h), ChildOf(g, h), ChildOf([chunk], h), h), refs, chunk, h + 1)
  {
    hide Build, Groups, Counts, Contiguous;
    SizeStep(h + 1);
    BranchValid(refs, h);
    BranchValid([chunk], h);
    OneGroup(chunk, h);
    SplitStepFull(store, h, Under(refs, h), ChildOf(g, h), ChildOf([chunk], h));
    BuildBranch(refs, h);
    BuildBranch([chunk], h);
  }

  lemma LastGroup(refs: seq<ChunkRef>, chunk: ChunkRef, h: nat)
    requires refs != [] && Contiguous(refs + [chunk])
    ensures var g := Last(Groups(refs, Size(h)));
            g != [] && |g| <= Size(h) && Contiguous(g + [chunk]) && Last(Under(refs, h)) == ChildOf(g, h)
  {
    hide Groups, Build, Times;
    var g := Last(Groups(refs, Size(h)));
    GroupsShape(refs, Size(h));
    assert g + [chunk] == (refs + [chunk])[|refs| - |g|..|refs| + 1];
    ContiguousSlice(refs + [chunk], |refs| - |g|, |refs| + 1);
  }

  lemma {:induction false} AppendAtBuilds(store: set<Digest>, refs: seq<ChunkRef>, chunk: ChunkRef, h: nat)
    requires refs != [] && |refs| <= Size(h) && h <= MAX_HEIGHT && Contiguous(refs + [chunk])
    requires Stored(store, Digest(Build(refs, h)))
    ensures Spine(AppendAt(store, Digest(Build(refs, h)), h, chunk), refs, chunk, h)
    decreases h
  {
    hide Groups, Contiguous, Counts, Spine, Size;
    ContiguousHalves(refs, [chunk]);
    BuildValid(refs, h);
    if h == 0 {
      LeafAppends(store, refs, chunk);
    } else {
      BranchAppends(store, refs, chunk, h - 1);
    }
  }

  lemma {:induction false} BranchAppends(store: set<Digest>, refs: seq<ChunkRef>, chunk: ChunkRef, h: nat)
    requires refs != [] && |refs| <= Size(h + 1) && h < MAX_HEIGHT && Contiguous(refs + [chunk])
    requires Stored(store, Digest(Build(refs, h + 1)))
    requires Valid(Build(refs, h + 1))
    ensures Spine(AppendAt(store, Digest(Build(refs, h + 1)), h + 1, chunk), refs, chunk, h + 1)
    decreases h + 1, 0
  {
    var g := Last(Groups(refs, Size(h)));
    LastGroup(refs, chunk, h);
    BuildBranch(refs, h);
    BranchKids(store, refs, h);
    assert Last(Under(refs, h)).digest == Digest(Build(g, h));
    hide Groups, Size, Build, Contiguous, Spine, Valid, Stored, StoredKids, Under, AppendGrown, AppendSplit,
        AppendLeaf, ChildOf;
    AppendAtBuilds(store, g, chunk, h);
    BranchContinues(store, refs, chunk, h, g, AppendAt(store, Digest(Build(g, h)), h, chunk));
  }

  lemma BranchKids(store: set<Digest>, refs: seq<ChunkRef>, h: nat)
    requires refs != [] && Stored(store, Digest(Build(refs, h + 1)))
    ensures Digest(Build(refs, h + 1)) in store && StoredKids(store, Under(refs, h)) && Under(refs, h) != []
    ensures Stored(store, Last(Under(refs, h)).digest)
  {
    hide Groups, Build, Size;
    BuildBranch(refs, h);
  }

  /** The level above takes what the level below gave. */
  lemma BranchContinues(store: set<Digest>, refs: seq<ChunkRef>, chunk: ChunkRef, h: nat, g: seq<ChunkRef>,
                        w: Written<SpineUpdate>)
    requires refs != [] && |refs| <= Size(h + 1) && h < MAX_HEIGHT && Contiguous(refs + [chunk])
    requires g == Last(Groups(refs, Size(h))) && |g| <= Size(h) && Contiguous(g + [chunk])
    requires StoredKids(store, Under(refs, h)) && store <= w.store && Spine(w, g, chunk, h)
    ensures w.result.Ok?
    ensures match w.result.value
            case Grown(d, gh) => Spine(AppendGrown(w.store, h + 1, Under(refs, h), d, gh), refs, chunk, h + 1)
            case SplitUp(l, r, sh) =>
              |Under(refs, h)| <= MAX_ITEMS
                  && Spine(AppendSplit(w.store, h + 1, Under(refs, h), l, r, sh), refs, chunk, h + 1)
  {
    SizeStep(h + 1);
    GroupsWidth(refs, Size(h));
    StoredKidsStay(store, w.store, Under(refs, h));
    if |g| < Size(h) {
      GrownAppends(w.store, refs, chunk, h, g);
    } else if |refs| < Size(h + 1) {
      SplitAppends(w.store, refs, chunk, h, g);
    } else {
      ContiguousHalves(refs, [chunk]);
      FullSplits(w.store, refs, chunk, h, g);
    }
  }

  // ---- full nodes ------------------------------------------------------------------------------

  /** A node with every place below it taken. */
  predicate Full(n: Node, h: nat)
    decreases h
  {
    if h == 0 then n.Leaf? && |n.refs| == MAX_ITEMS
    else n.Branch? && |n.children| == MAX_ITEMS && forall k :: 0 <= k < MAX_ITEMS ==>
        Full(n.children[k].digest.node, h - 1)
  }

  /** A node all of whose nodes off the right spine are full. */
  predicate FullOffSpine(n: Node, h: nat)
    decreases h
  {
    if h == 0 then n.Leaf?
    else
      && n.Branch? && n.children != []
      && (forall k :: 0 <= k < |n.children| - 1 ==> Full(n.children[k].digest.node, h - 1))
      && FullOffSpine(Last(n.children).digest.node, h - 1)
  }

  /** The first n children are full. */
  predicate AllFull(c: seq<Child>, n: nat, h: nat)
    requires n <= |c|
  {
    forall k :: 0 <= k < n ==> Full(c[k].digest.node, h)
  }

  lemma UnderGroup(refs: seq<ChunkRef>, h: nat, k: nat)
    requires refs != [] && k < |Groups(refs, Size(h))|
    ensures |Under(refs, h)| == |Groups(refs, Size(h))|
    ensures Groups(refs, Size(h))[k] != [] && Under(refs, h)[k].digest.node == Build(Groups(refs, Size(h))[k], h)
  {
    hide Groups, Build, Size;
  }

  lemma {:induction false} UnderIsFull(refs: seq<ChunkRef>, h: nat, n: nat)
    requires refs != [] && n <= |Groups(refs, Size(h))| == |Under(refs, h)|
    requires n == |Groups(refs, Size(h))| ==> |Last(Groups(refs, Size(h)))| == Size(h)
    ensures AllFull(Under(refs, h), n, h)
    decreases h, n + 1
  {
    hide Groups, Build, Size, Under, Full;
    if n > 0 {
      UnderIsFull(refs, h, n - 1);
      UnderGroup(refs, h, n - 1);
      if n < |Groups(refs, Size(h))| {
        GroupsFull(refs, Size(h), n - 1);
      }
      SizeIsFull(Groups(refs, Size(h))[n - 1], h);
    }
  }

  lemma FullBranch(c: seq<Child>, h: nat)
    requires |c| == MAX_ITEMS && AllFull(c, MAX_ITEMS, h)
    ensures Full(Branch(h + 1, c), h + 1)
  {
  }

  lemma FullOffSpineBranch(c: seq<Child>, h: nat)
    requires c != [] && AllFull(c, |c| - 1, h) && FullOffSpine(Last(c).digest.node, h)
    ensures FullOffSpine(Branch(h + 1, c), h + 1)
  {
    hide Full;
  }

  lemma {:induction false} SizeIsFull(refs: seq<ChunkRef>, h: nat)
    requires refs != [] && |refs| == Size(h)
    ensures Full(Build(refs, h), h)
    decreases h, 0
  {
    hide Groups, Build, Size, Full;
    if h > 0 {
      BranchIsFull(refs, h - 1);
    } else {
      LeafIsFull(refs);
    }
  }

  lemma LeafIsFull(refs: seq<ChunkRef>)
    requires refs != []
    ensures FullOffSpine(Build(refs, 0), 0) && (|refs| == Size(0) ==> Full(Build(refs, 0), 0))
  {
    BuildLeaf(refs);
  }

  lemma {:induction false} BranchIsFull(refs: seq<ChunkRef>, h: nat)
    requires refs != [] && |refs| == Size(h + 1)
    ensures Full(Build(refs, h + 1), h + 1)
    decreases h, MAX_ITEMS + 2
  {
    SizeStep(h + 1);
    hide Groups, Build, Size, Under, Full, AllFull;
    BuildBranch(refs, h);
    GroupsWidth(refs, Size(h));
    UnderGroup(refs, h, 0);
    UnderIsFull(refs, h, MAX_ITEMS);
    FullBranch(Under(refs, h), h);
  }

  /** Whatever was appended, every node off the right spine is full. */
  lemma {:induction false} OffSpineIsFull(refs: seq<ChunkRef>, h: nat)
    requires refs != []
    ensures FullOffSpine(Build(refs, h), h)
    decreases h, 0
  {
    hide Groups, Build, Size, FullOffSpine;
    if h > 0 {
      BranchOffSpine(refs, h - 1);
    } else {
      LeafIsFull(refs);
    }
  }

  lemma {:induction false} BranchOffSpine(refs: seq<ChunkRef>, h: nat)
    requires refs != []
    ensures FullOffSpine(Build(refs, h + 1), h + 1)
    decreases h, 1
  {
    hide Groups, Build, Size, Under, FullOffSpine, AllFull;
    BuildBranch(refs, h);
    var n := |Groups(refs, Size(h))|;
    UnderGroup(refs, h, n - 1);
    UnderIsFull(refs, h, n - 1);
    OffSpineIsFull(Groups(refs, Size(h))[n - 1], h);
    FullOffSpineBranch(Under(refs, h), h);
  }

  // ---- the root ------------------------------------------------------------------------------

  /** The least height that holds n chunks. */
  predicate Tight(n: nat, h: nat) {
    n <= Size(h) && (h > 0 ==> n > Size(h - 1))
  }

  /** A catalog state that stands for a sequence of chunk refs. */
  ghost predicate Represents(store: set<Digest>, state: Option<Root>, refs: seq<ChunkRef>) {
    if refs == [] then state.None?
    else
      && Contiguous(refs) && refs[0].first == 1
      && state.Some? && state.value.height <= MAX_HEIGHT && Tight(|refs|, state.value.height)
      && state.value == Root(Digest(Build(refs, state.value.height)), state.value.height,
                             refs[0].first, Last(refs).last, |refs|)
      && Stored(store, state.value.digest)
  }

  predicate Follows(refs: seq<ChunkRef>, chunk: ChunkRef) {
    ValidRef(chunk) && chunk.first == if refs == [] then 1 else Last(refs).last + 1
  }

  lemma FirstAppend(store: set<Digest>, chunk: ChunkRef)
    requires Follows([], chunk)
    ensures var w := Append(store, None, chunk);
            w.result.Ok? && Represents(w.store, Some(w.result.value), [chunk])
  {
    assert Valid(Leaf([chunk]));
    assert Build([chunk], 0) == Leaf([chunk]);
  }

  lemma NewTop(store: set<Digest>, refs: seq<ChunkRef>, chunk: ChunkRef, h: nat)
    requires refs != [] && |refs| == Size(h) && h < MAX_HEIGHT && Contiguous(refs + [chunk])
    requires Stored(store, Digest(Build(refs, h))) && Stored(store, Digest(Build([chunk], h)))
    ensures Build(refs + [chunk], h + 1) == Branch(h + 1, [ChildOf(refs, h), ChildOf([chunk], h)])
    ensures var w := PutNode(store, Branch(h + 1, [ChildOf(refs, h), ChildOf([chunk], h)]));
            w.result == Ok(Digest(Build(refs + [chunk], h + 1)))
                && Stored(w.store, Digest(Build(refs + [chunk], h + 1)))
  {
    hide Build, Counts;
    var s := Size(h);
    assert Groups(refs, s) == [refs];
    GroupsAppend(refs, chunk, s);
    assert Groups(refs + [chunk], s) == [refs, [chunk]];
    assert Under(refs + [chunk], h) == [ChildOf(refs, h), ChildOf([chunk], h)];
    BuildBranch(refs + [chunk], h);
    BranchValid(refs + [chunk], h);
    PutBranchStores(store, h + 1, Under(refs + [chunk], h));
  }

  /** Appending refines adding one chunk at the end. A chunk that is malformed or
      does not start right after the last one is refused and nothing changes; a
      chunk that does is refused exactly when 32^9 chunks are stored. */
  lemma AppendRefines(store: set<Digest>, state: Option<Root>, refs: seq<ChunkRef>, chunk: ChunkRef)
    requires Represents(store, state, refs)
    ensures var w := Append(store, state, chunk);
            if !Follows(refs, chunk) then w == Written(store, Err(Integrity))
            else if |refs| == Size(MAX_HEIGHT) then w.result == Err(Rejected)
            else w.result.Ok? && Represents(w.store, Some(w.result.value), refs + [chunk])
  {
    if Follows(refs, chunk) {
      if refs == [] {
        assert refs + [chunk] == [chunk];
        FirstAppend(store, chunk);
      } else {
        ContiguousExtends(refs, chunk);
        AppendAtBuilds(store, refs, chunk, state.value.height);
        RootAppends(store, state.value, refs, chunk);
      }
    }
  }

  lemma ContiguousExtends(refs: seq<ChunkRef>, chunk: ChunkRef)
    requires refs != [] && Contiguous(refs) && Follows(refs, chunk)
    ensures Contiguous(refs + [chunk])
  {
  }

  lemma RootAppends(store: set<Digest>, root: Root, refs: seq<ChunkRef>, chunk: ChunkRef)
    requires refs != [] && Represents(store, Some(root), refs) && Follows(refs, chunk) && Contiguous(refs + [chunk])
    requires Spine(AppendAt(store, root.digest, root.height, chunk), refs, chunk, root.height)
    ensures var w := Append(store, Some(root), chunk);
            if |refs| == Size(MAX_HEIGHT) then w.result == Err(Rejected)
            else w.result.Ok? && Represents(w.store, Some(w.result.value), refs + [chunk])
  {
    SizesGrow(root.height, MAX_HEIGHT);
    if |refs| < Size(root.height) {
      RootGrows(store, root, refs, chunk, AppendAt(store, root.digest, root.height, chunk));
    } else if root.height < MAX_HEIGHT {
      RootSplits(store, root, refs, chunk, AppendAt(store, root.digest, root.height, chunk));
    }
  }

  lemma RootGrows(store: set<Digest>, root: Root, refs: seq<ChunkRef>, chunk: ChunkRef, w: Written<SpineUpdate>)
    requires refs != [] && |refs| < Size(root.height) && root.height <= MAX_HEIGHT && refs[0].first == 1
    requires Tight(|refs|, root.height) && Follows(refs, chunk) && Contiguous(refs + [chunk])
             && root.last == Last(refs).last
    requires w == AppendAt(store, root.digest, root.height, chunk) && Spine(w, refs, chunk, root.height)
    ensures var w := Append(store, Some(root), chunk);
            w.result.Ok? && Represents(w.store, Some(w.result.value), refs + [chunk])
  {
    hide Groups, Build, ValidBranch, ValidLeaf, Contiguous, Counts, AppendAt;
    var h, node := root.height, Build(refs + [chunk], root.height);
    BuildValid(refs + [chunk], h);
    RootOf(refs + [chunk], h);
    assert Append(store, Some(root), chunk) == Written(w.store, Ok(RootFromNode(Digest(node), node)));
  }

  lemma RootOf(refs: seq<ChunkRef>, h: nat)
    requires refs != [] && Valid(Build(refs, h))
    requires ChildFromNode(Digest(Build(refs, h)), Build(refs, h)) == ChildOf(refs, h)
    ensures RootFromNode(Digest(Build(refs, h)), Build(refs, h))
            == Root(Digest(Build(refs, h)), h, refs[0].first, Last(refs).last, |refs|)
  {
  }

  lemma RootSplits(store: set<Digest>, root: Root, refs: seq<ChunkRef>, chunk: ChunkRef, w: Written<SpineUpdate>)
    requires refs != [] && |refs| == Size(root.height) && root.height < MAX_HEIGHT && refs[0].first == 1
    requires Follows(refs, chunk) && Contiguous(refs + [chunk]) && root.last == Last(refs).last
    requires w == AppendAt(store, root.digest, root.height, chunk) && Spine(w, refs, chunk, root.height)
    ensures var w := Append(store, Some(root), chunk);
            w.result.Ok? && Represents(w.store, Some(w.result.value), refs + [chunk])
  {
    hide Groups, Build, ValidBranch, ValidLeaf, Contiguous, Counts, AppendAt;
    var h := root.height;
    NewTop(w.store, refs, chunk, h);
    SizeStep(h + 1);
  }

  lemma {:induction false} SizesGrow(h: nat, k: nat)
    requires h <= k
    ensures Size(h) <= Size(k) && (h < k ==> Size(h) < Size(k))
  {
    if h < k {
      SizesGrow(h, k - 1);
    }
  }

  /** The capacity in chunks: 32^9. */
  lemma Capacity()
    ensures Size(MAX_HEIGHT) == 35_184_372_088_832
  {
    assert Size(0) == 32 && Size(1) == 1_024 && Size(2) == 32_768 && Size(3) == 1_048_576;
    assert Size(4) == 33_554_432 && Size(5) == 1_073_741_824 && Size(6) == 34_359_738_368;
    assert Size(7) == 1_099_511_627_776;
  }

  /** One sequence of chunks has one height, so one root digest. */
  lemma Canonical(store: set<Digest>, store': set<Digest>, state: Option<Root>, state': Option<Root>,
                  refs: seq<ChunkRef>)
    requires Represents(store, state, refs) && Represents(store', state', refs)
    ensures state == state'
  {
    hide Build, Groups, Contiguous, Stored;
    if refs != [] {
      var h, h' := state.value.height, state'.value.height;
      if h < h' {
        SizesGrow(h, h' - 1);
      } else if h' < h {
        SizesGrow(h', h - 1);
      }
    }
  }

  /** Whatever is appended later, an older root still stands for its chunks. */
  lemma OldRootsStay(store: set<Digest>, state: Option<Root>, refs: seq<ChunkRef>, later: Option<Root>, chunk: ChunkRef)
    requires Represents(store, state, refs)
    ensures Represents(Append(store, later, chunk).store, state, refs)
  {
    if refs != [] {
      StoredStays(store, Append(store, later, chunk).store, state.value.digest);
    }
  }

  // ---- seek -----------------------------------------------------------------------------------

  predicate Covers(refs: seq<ChunkRef>, s: nat) {
    refs != [] && refs[0].first <= s <= Last(refs).last
  }

  /** g is a run of consecutive refs. */
  ghost predicate Slice(refs: seq<ChunkRef>, g: seq<ChunkRef>) {
    exists i: nat :: SliceAt(refs, g, i)
  }

  predicate SliceAt(refs: seq<ChunkRef>, g: seq<ChunkRef>, i: nat) {
    i + |g| <= |refs| && refs[i..i + |g|] == g
  }

  lemma SliceOfTail(refs: seq<ChunkRef>, s: nat, g: seq<ChunkRef>)
    requires s <= |refs| && Slice(refs[s..], g)
    ensures Slice(refs, g)
  {
    var i: nat :| SliceAt(refs[s..], g, i);
    assert SliceAt(refs, g, s + i);
  }

  lemma SliceOfSlice(refs: seq<ChunkRef>, g: seq<ChunkRef>, f: seq<ChunkRef>)
    requires Slice(refs, g) && Slice(g, f)
    ensures Slice(refs, f)
  {
    var i: nat :| SliceAt(refs, g, i);
    var j: nat :| SliceAt(g, f, j);
    forall k | 0 <= k < |f| ensures refs[i + j..i + j + |f|][k] == f[k] {
      assert f[k] == g[j..j + |f|][k] == g[j + k] == refs[i..i + |g|][j + k];
    }
    assert SliceAt(refs, f, i + j);
  }

  /** A sequence is covered by the first group or by the rest. */
  lemma CoverSplits(refs: seq<ChunkRef>, size: nat, s: nat)
    requires 0 < size < |refs| && Contiguous(refs) && Covers(refs, s)
    ensures Contiguous(refs[..size]) && Contiguous(refs[size..])
    ensures Covers(refs[..size], s) <==> s <= Last(refs[..size]).last
    ensures !Covers(refs[..size], s) ==> Covers(refs[size..], s)
  {
    ContiguousSlice(refs, 0, size);
    ContiguousSlice(refs, size, |refs|);
    assert refs[size - 1 + 1].first == refs[size - 1].last + 1;
  }

  lemma FindCoverStep(refs: seq<ChunkRef>, size: nat, h: nat, s: nat)
    requires 0 < size < |refs|
    ensures FindCover(Kids(Groups(refs, size), h), s)
            == if Covers(refs[..size], s) then Some(ChildOf(refs[..size], h))
               else FindCover(Kids(Groups(refs[size..], size), h), s)
  {
    hide Build;
    var kids := Kids(Groups(refs, size), h);
    assert kids[0] == ChildOf(refs[..size], h);
    assert kids[1..] == Kids(Groups(refs[size..], size), h);
  }

  lemma {:induction false} FindCoverFinds(refs: seq<ChunkRef>, size: nat, h: nat, s: nat) returns (g: seq<ChunkRef>)
    requires size > 0 && Contiguous(refs) && Covers(refs, s)
    ensures g != [] && |g| <= size && Slice(refs, g) && Contiguous(g) && Covers(g, s)
    ensures FindCover(Kids(Groups(refs, size), h), s) == Some(ChildOf(g, h))
    ensures g in Groups(refs, size)
  {
    hide Build, Contiguous, Kids;
    if |refs| <= size {
      g := refs;
      assert Groups(refs, size) == [refs];
      assert Kids([refs], h)[0] == ChildOf(refs, h);
      assert SliceAt(refs, g, 0);
    } else {
      CoverSplits(refs, size, s);
      FindCoverStep(refs, size, h, s);
      if Covers(refs[..size], s) {
        g := refs[..size];
        assert Groups(refs, size)[0] == g;
        assert SliceAt(refs, g, 0);
      } else {
        g := FindCoverFinds(refs[size..], size, h, s);
        SliceOfTail(refs, size, g);
        assert Groups(refs, size) == [refs[..size]] + Groups(refs[size..], size);
      }
    }
  }

  /** A seek below a node found the covering leaf. */
  ghost predicate Found(r: Result<Option<seq<ChunkRef>>, Error>, refs: seq<ChunkRef>, s: nat) {
    r.Ok? && r.value.Some? && Slice(refs, r.value.value) && Covers(r.value.value, s) && |r.value.value| <= MAX_ITEMS
  }

  lemma SeekLeafNode(store: set<Digest>, refs: seq<ChunkRef>, depth: nat, s: nat)
    requires Covers(refs, s) && |refs| <= Size(0) && depth <= MAX_HEIGHT
    requires Digest(Leaf(refs)) in store && Valid(Leaf(refs))
    ensures Found(SeekFrom(store, Digest(Leaf(refs)), depth, s), refs, s)
  {
    assert SliceAt(refs, refs, 0);
  }

  lemma {:induction false} SeekFinds(store: set<Digest>, refs: seq<ChunkRef>, h: nat, depth: nat, s: nat)
    requires Contiguous(refs) && Covers(refs, s) && |refs| <= Size(h) && h + depth <= MAX_HEIGHT
    requires Stored(store, Digest(Build(refs, h)))
    ensures Found(SeekFrom(store, Digest(Build(refs, h)), depth, s), refs, s)
    decreases h
  {
    hide Groups, Contiguous, Counts, Found, SeekFrom;
    BuildValid(refs, h);
    if h == 0 {
      SeekLeafNode(store, refs, depth, s);
    } else {
      SeekBranch(store, refs, h - 1, depth, s);
    }
  }

  lemma {:induction false} SeekBranch(store: set<Digest>, refs: seq<ChunkRef>, h: nat, depth: nat, s: nat)
    requires refs != [] && Contiguous(refs) && Covers(refs, s) && |refs| <= Size(h + 1) && h + 1 + depth <= MAX_HEIGHT
    requires Stored(store, Digest(Build(refs, h + 1))) && Valid(Build(refs, h + 1))
    ensures Found(SeekFrom(store, Digest(Build(refs, h + 1)), depth, s), refs, s)
    decreases h + 1, 0
  {
    hide Groups, Contiguous, Counts, ValidBranch, ValidLeaf, Slice, Covers;
    BuildBranch(refs, h);
    var g := FindCoverFinds(refs, Size(h), h, s);
    ChildStored(store, refs, h, g);
    SeekFinds(store, g, h, depth + 1, s);
    SliceOfSlice(refs, g, SeekFrom(store, Digest(Build(g, h)), depth + 1, s).value.value);
  }

  lemma ChildStored(store: set<Digest>, refs: seq<ChunkRef>, h: nat, g: seq<ChunkRef>)
    requires refs != [] && g != [] && g in Groups(refs, Size(h)) && Stored(store, Digest(Branch(h + 1, Under(refs, h))))
    ensures Stored(store, Digest(Build(g, h)))
  {
    hide Build;
    var groups := Groups(refs, Size(h));
    var k :| 0 <= k < |groups| && groups[k] == g;
    assert Under(refs, h)[k] == ChildOf(g, h);
  }

  /** Seeking any sequence in range returns the leaf that covers it, a run of at
      most 32 of the appended chunks; outside the range it finds nothing. Neither
      the depth guard nor any other integrity check fires. */
  lemma SeekExact(store: set<Digest>, state: Option<Root>, refs: seq<ChunkRef>, s: nat)
    requires Represents(store, state, refs)
    ensures var r := SeekSpec(store, state, s);
            && r.Ok? && (r.value.Some? <==> Covers(refs, s))
            && (r.value.Some? ==>
                Slice(refs, r.value.value) && Covers(r.value.value, s) && |r.value.value| <= MAX_ITEMS)
  {
    if Covers(refs, s) {
      SeekFinds(store, refs, state.value.height, 0, s);
    }
  }
}
