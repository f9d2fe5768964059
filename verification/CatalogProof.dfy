/** The catalog refines a sequence of chunk refs: after any appends its root is
    the reference tree of that sequence, packed from the left. */
module CatalogProof {
  import opened Wrappers
  import opened Catalog

  // ---- grouping from the left --------------------------------------------------------

  function Last<T>(s: seq<T>): T
    requires s != []
  {
    s[|s| - 1]
  }

  /** Full groups of s refs, and one for the rest. */
  function Groups(refs: seq<ChunkRef>, s: nat): (g: seq<seq<ChunkRef>>)
    requires refs != [] && s > 0
    ensures g != [] && forall k :: 0 <= k < |g| ==> 1 <= |g[k]| <= s
    ensures g[0][0] == refs[0] && Last(Last(g)) == Last(refs)
  {
    if |refs| <= s then [refs] else [refs[..s]] + Groups(refs[s..], s)
  }

  function Times(k: nat, s: nat): nat {
    if k == 0 then 0 else s + Times(k - 1, s)
  }

  lemma {:induction false} TimesIs(k: nat, s: nat)
    ensures Times(k, s) == k * s
  {
    if k > 0 {
      TimesIs(k - 1, s);
      assert s + (k - 1) * s == k * s;
    }
  }

  lemma {:induction false} TimesGrows(j: nat, k: nat, s: nat)
    requires j < k
    ensures Times(j, s) + s <= Times(k, s)
  {
    if j < k - 1 {
      TimesGrows(j, k - 1, s);
    }
  }

  lemma GroupsStep(refs: seq<ChunkRef>, s: nat)
    requires refs != [] && s > 0
    ensures |refs| <= s ==> Groups(refs, s) == [refs]
    ensures |refs| > s ==> Groups(refs, s) == [refs[..s]] + Groups(refs[s..], s)
  {
  }

  lemma {:induction false} GroupsShape(refs: seq<ChunkRef>, s: nat)
    requires refs != [] && s > 0
    ensures |refs| == Times(|Groups(refs, s)| - 1, s) + |Last(Groups(refs, s))|
    ensures |Last(Groups(refs, s))| <= |refs|
    ensures Last(Groups(refs, s)) == refs[|refs| - |Last(Groups(refs, s))|..]
  {
    LastOfGroups(refs, s);
    hide Groups;
    if |refs| > s {
      GroupsShape(refs[s..], s);
      DropDrop(refs, s, |Last(Groups(refs[s..], s))|);
      TimesStep(|Groups(refs[s..], s)|, s);
    } else {
      TimesStep(0, s);
    }
  }

  lemma LastOfGroups(refs: seq<ChunkRef>, s: nat)
    requires refs != [] && s > 0
    ensures |refs| <= s ==> |Groups(refs, s)| == 1 && Last(Groups(refs, s)) == refs == refs[0..]
    ensures |refs| > s ==>
              |Groups(refs, s)| == |Groups(refs[s..], s)| + 1 && Last(Groups(refs, s)) == Last(Groups(refs[s..], s))
  {
    GroupsStep(refs, s);
    hide Groups;
  }

  lemma DropDrop(refs: seq<ChunkRef>, s: nat, n: nat)
    requires s + n <= |refs|
    ensures refs[s..][|refs| - s - n..] == refs[|refs| - n..]
  {
  }

  lemma TimesStep(k: nat, s: nat)
    ensures Times(0, s) == 0 && (k > 0 ==> Times(k, s) == s + Times(k - 1, s))
  {
  }

  /** Every group but the last is full. */
  lemma {:induction false} GroupsFull(refs: seq<ChunkRef>, s: nat, k: nat)
    requires refs != [] && s > 0 && k + 1 < |Groups(refs, s)|
    ensures |Groups(refs, s)[k]| == s
  {
    GroupsStep(refs, s);
    hide Groups;
    assert |refs| > s;
    if k > 0 {
      assert Groups(refs, s)[k] == Groups(refs[s..], s)[k - 1];
      GroupsFull(refs[s..], s, k - 1);
    }
  }

  lemma GroupCount(n: nat, last: nat, s: nat)
    requires n > 0 && 0 < last <= s
    ensures Times(n - 1, s) + last <= 32 * s <==> n <= MAX_ITEMS
    ensures Times(n - 1, s) + last == 32 * s <==> n == MAX_ITEMS && last == s
  {
    TimesIs(MAX_ITEMS, s);
    TimesIs(MAX_ITEMS - 1, s);
    if n > MAX_ITEMS {
      TimesGrows(MAX_ITEMS - 1, n - 1, s);
    } else if n < MAX_ITEMS {
      TimesGrows(n - 1, MAX_ITEMS - 1, s);
    }
  }

  /** At most 32 groups come of at most 32 full ones; there are 32 with the last
      one full exactly at that size. */
  lemma GroupsWidth(refs: seq<ChunkRef>, s: nat)
    requires refs != [] && s > 0 && |refs| <= 32 * s
    ensures |Groups(refs, s)| <= MAX_ITEMS
    ensures |refs| == 32 * s <==> |Groups(refs, s)| == MAX_ITEMS && |Last(Groups(refs, s))| == s
  {
    GroupsShape(refs, s);
    GroupCount(|Groups(refs, s)|, |Last(Groups(refs, s))|, s);
  }

  function Appended<T>(g: seq<seq<T>>, x: T, s: nat): seq<seq<T>>
    requires g != []
  {
    if |Last(g)| < s then g[..|g| - 1] + [Last(g) + [x]] else g + [[x]]
  }

  lemma AppendedTail<T>(first: seq<T>, g: seq<seq<T>>, x: T, s: nat)
    requires g != []
    ensures Appended([first] + g, x, s) == [first] + Appended(g, x, s)
  {
    assert Last([first] + g) == Last(g);
    assert ([first] + g)[..|g|] == [first] + g[..|g| - 1];
  }

  /** Appending rewrites the last group, or starts one. */
  lemma {:induction false} GroupsAppend(refs: seq<ChunkRef>, chunk: ChunkRef, s: nat)
    requires refs != [] && s > 0
    ensures Groups(refs + [chunk], s) == Appended(Groups(refs, s), chunk, s)
  {
    hide Groups;
    var whole := refs + [chunk];
    GroupsStep(refs, s);
    GroupsStep(whole, s);
    if |refs| > s {
      GroupsAppend(refs[s..], chunk, s);
      assert whole[..s] == refs[..s] && whole[s..] == refs[s..] + [chunk];
      AppendedTail(refs[..s], Groups(refs[s..], s), chunk, s);
    } else if |refs| == s {
      assert whole[..s] == refs && whole[s..] == [chunk];
      GroupsStep([chunk], s);
    }
  }

  ghost predicate Contiguous(refs: seq<ChunkRef>) {
    && (forall k :: 0 <= k < |refs| ==> ValidRef(refs[k]))
    && (forall k :: 0 <= k < |refs| - 1 ==> refs[k + 1].first == refs[k].last + 1)
  }

  lemma ContiguousSlice(refs: seq<ChunkRef>, i: nat, j: nat)
    requires Contiguous(refs) && i <= j <= |refs|
    ensures Contiguous(refs[i..j])
  {
    forall k | 0 <= k < j - i - 1 ensures refs[i..j][k + 1].first == refs[i..j][k].last + 1 {
      assert refs[i + k + 1].first == refs[i + k].last + 1;
    }
  }

  lemma ContiguousHalves(a: seq<ChunkRef>, b: seq<ChunkRef>)
    requires Contiguous(a + b)
    ensures Contiguous(a) && Contiguous(b)
  {
    assert (a + b)[0..|a|] == a && (a + b)[|a|..|a + b|] == b;
    ContiguousSlice(a + b, 0, |a|);
    ContiguousSlice(a + b, |a|, |a + b|);
  }

  lemma {:induction false} SpanCovers(refs: seq<ChunkRef>)
    requires refs != [] && Contiguous(refs)
    ensures 1 <= refs[0].first && |refs| <= Last(refs).last - refs[0].first + 1
  {
    if |refs| > 1 {
      ContiguousSlice(refs, 0, |refs| - 1);
      SpanCovers(refs[..|refs| - 1]);
      assert refs[|refs| - 2 + 1].first == refs[|refs| - 2].last + 1;
    }
  }

  /** Groups of a contiguous sequence are contiguous and meet end to end. */
  ghost predicate Linked(g: seq<seq<ChunkRef>>) {
    && (forall k :: 0 <= k < |g| ==> g[k] != [] && Contiguous(g[k]))
    && (forall k :: 0 <= k < |g| - 1 ==> g[k + 1][0].first == Last(g[k]).last + 1)
  }

  lemma LinkedCons(first: seq<ChunkRef>, rest: seq<seq<ChunkRef>>)
    requires first != [] && Contiguous(first) && rest != [] && Linked(rest)
    requires rest[0][0].first == Last(first).last + 1
    ensures Linked([first] + rest)
  {
    var g: seq<seq<ChunkRef>> := [first] + rest;
    forall k | 0 <= k < |rest| ensures g[k + 1][0].first == Last(g[k]).last + 1 {
      if k > 0 {
        assert rest[k - 1 + 1][0].first == Last(rest[k - 1]).last + 1;
        assert g[k + 1] == rest[k] && g[k] == rest[k - 1];
      }
    }
  }

  lemma {:induction false} GroupsLinked(refs: seq<ChunkRef>, s: nat)
    requires refs != [] && s > 0 && Contiguous(refs)
    ensures Linked(Groups(refs, s))
  {
    if |refs| > s {
      ContiguousSlice(refs, 0, s);
      ContiguousSlice(refs, s, |refs|);
      GroupsLinked(refs[s..], s);
      assert refs[s - 1 + 1].first == refs[s - 1].last + 1;
      LinkedCons(refs[..s], Groups(refs[s..], s));
    }
  }

  // ---- the reference tree ------------------------------------------------------------

  /** Chunks held by a full tree of height h: 32^(h+1). */
  function Size(h: nat): (s: nat)
    ensures s >= MAX_ITEMS
  {
    if h == 0 then MAX_ITEMS else 32 * Size(h - 1)
  }

  lemma SizeStep(h: nat)
    requires h > 0
    ensures Size(h) == 32 * Size(h - 1)
  {
  }

  /** A leaf holds the refs; a branch holds one child per group of the size
      below it, with that group's exact first, last and count. */
  function Build(refs: seq<ChunkRef>, h: nat): (n: Node)
    requires refs != []
    ensures n.Branch? ==> n.height == h
    decreases h
  {
    if h == 0 then Leaf(refs)
    else
      var g: seq<seq<ChunkRef>> := Groups(refs, Size(h - 1));
      Branch(h, seq(|g|, k requires 0 <= k < |g| =>
        Child(g[k][0].first, Last(g[k]).last, |g[k]|, Digest(Build(g[k], h - 1)))))
  }

  function ChildOf(refs: seq<ChunkRef>, h: nat): Child
    requires refs != []
  {
    Child(refs[0].first, Last(refs).last, |refs|, Digest(Build(refs, h)))
  }

  function Kids(g: seq<seq<ChunkRef>>, h: nat): (c: seq<Child>)
    requires forall k :: 0 <= k < |g| ==> g[k] != []
    ensures |c| == |g| && forall k :: 0 <= k < |g| ==> c[k] == ChildOf(g[k], h)
  {
    seq(|g|, k requires 0 <= k < |g| => ChildOf(g[k], h))
  }

  function Under(refs: seq<ChunkRef>, h: nat): (c: seq<Child>)
    requires refs != []
    ensures c != []
  {
    Kids(Groups(refs, Size(h)), h)
  }

  lemma BuildBranch(refs: seq<ChunkRef>, h: nat)
    requires refs != []
    ensures Build(refs, h + 1) == Branch(h + 1, Under(refs, h))
  {
    var g: seq<seq<ChunkRef>> := Groups(refs, Size(h));
    assert seq(|g|, k requires 0 <= k < |g| =>
      Child(g[k][0].first, Last(g[k]).last, |g[k]|, Digest(Build(g[k], h)))) == Kids(g, h);
  }

  lemma {:induction false} KidsCount(refs: seq<ChunkRef>, s: nat, h: nat)
    requires refs != [] && s > 0
    ensures Counts(Kids(Groups(refs, s), h)) == |refs|
  {
    hide Build, Groups, Counts;
    GroupsStep(refs, s);
    if |refs| > s {
      var first: seq<ChunkRef>, rest := refs[..s], Groups(refs[s..], s);
      KidsCount(refs[s..], s, h);
      assert Kids([first] + rest, h) == [ChildOf(first, h)] + Kids(rest, h);
      CountsCons(ChildOf(first, h), Kids(rest, h));
    } else {
      assert Kids([refs], h) == [ChildOf(refs, h)] + [];
      CountsCons(ChildOf(refs, h), []);
    }
  }

  lemma CountsCons(first: Child, rest: seq<Child>)
    ensures Counts([]) == 0 && Counts([first] + rest) == first.count + Counts(rest)
  {
    assert ([first] + rest)[1..] == rest;
  }

  lemma KidsValid(g: seq<seq<ChunkRef>>, h: nat)
    requires Linked(g)
    ensures var c := Kids(g, h);
            && (forall k :: 0 <= k < |c| ==> ValidChild(c[k]))
            && (forall k :: 0 <= k < |c| - 1 ==> c[k + 1].first == c[k].last + 1)
  {
    forall k | 0 <= k < |g| ensures ValidChild(Kids(g, h)[k]) {
      SpanCovers(g[k]);
    }
  }

  lemma BranchValid(refs: seq<ChunkRef>, h: nat)
    requires refs != [] && Contiguous(refs) && |refs| <= 32 * Size(h) && h < MAX_HEIGHT
    ensures ValidBranch(h + 1, Under(refs, h))
    ensures forall d :: ChildFromBranch(d, Under(refs, h)) == Child(refs[0].first, Last(refs).last, |refs|, d)
  {
    var s := Size(h);
    GroupsWidth(refs, s);
    GroupsLinked(refs, s);
    KidsValid(Groups(refs, s), h);
    KidsCount(refs, s, h);
  }

  lemma NodeValid(node: Node, h: nat, c: seq<Child>, refs: seq<ChunkRef>)
    requires refs != [] && node == Branch(h, c) && ValidBranch(h, c)
    requires forall d :: ChildFromBranch(d, c) == Child(refs[0].first, Last(refs).last, |refs|, d)
    ensures Valid(node)
            && ChildFromNode(Digest(node), node) == Child(refs[0].first, Last(refs).last, |refs|, Digest(node))
  {
  }

  /** Every node of a reference tree passes validation, and its parent's entry
      for it holds its exact first, last and count. */
  lemma BuildValid(refs: seq<ChunkRef>, h: nat)
    requires refs != [] && Contiguous(refs) && |refs| <= Size(h) && h <= MAX_HEIGHT
    ensures Valid(Build(refs, h))
    ensures ChildFromNode(Digest(Build(refs, h)), Build(refs, h)) == ChildOf(refs, h)
  {
    hide Build, Groups, Size, Valid, ChildFromNode, Contiguous, ChildOf;
    if h > 0 {
      BuildBranchValid(refs, h - 1);
    } else {
      BuildLeafValid(refs);
    }
  }

  lemma BuildBranchValid(refs: seq<ChunkRef>, h: nat)
    requires refs != [] && Contiguous(refs) && |refs| <= Size(h + 1) && h < MAX_HEIGHT
    ensures Valid(Build(refs, h + 1))
    ensures ChildFromNode(Digest(Build(refs, h + 1)), Build(refs, h + 1)) == ChildOf(refs, h + 1)
  {
    SizeStep(h + 1);
    hide Build, Groups, Size, Contiguous, Valid, ChildFromNode, ChildFromBranch, ValidBranch, Under;
    BranchValid(refs, h);
    BuildBranch(refs, h);
    NodeValid(Build(refs, h + 1), h + 1, Under(refs, h), refs);
  }

  lemma BuildLeafValid(refs: seq<ChunkRef>)
    requires refs != [] && Contiguous(refs) && |refs| <= Size(0)
    ensures Valid(Build(refs, 0))
    ensures ChildFromNode(Digest(Build(refs, 0)), Build(refs, 0)) == ChildOf(refs, 0)
  {
    BuildLeaf(refs);
    LeafValid(refs);
    hide Build, Groups, Size, Contiguous, Valid, ChildFromNode;
  }

  lemma BuildLeaf(refs: seq<ChunkRef>)
    requires refs != []
    ensures Build(refs, 0) == Leaf(refs) && Size(0) == MAX_ITEMS
  {
  }

  lemma LeafValid(refs: seq<ChunkRef>)
    requires refs != [] && Contiguous(refs) && |refs| <= MAX_ITEMS
    ensures Valid(Leaf(refs))
    ensures ChildFromNode(Digest(Leaf(refs)), Leaf(refs))
            == Child(refs[0].first, Last(refs).last, |refs|, Digest(Leaf(refs)))
  {
  }

  /** Appending rewrites the last child, or adds one. */
  lemma UnderAppend(refs: seq<ChunkRef>, chunk: ChunkRef, h: nat)
    requires refs != []
    ensures var c, g := Under(refs, h), Last(Groups(refs, Size(h)));
            Under(refs + [chunk], h)
            == if |g| < Size(h) then c[..|c| - 1] + [ChildOf(g + [chunk], h)] else c + [ChildOf([chunk], h)]
  {
    hide Build, Groups;
    GroupsAppend(refs, chunk, Size(h));
    KidsAppended(Groups(refs, Size(h)), chunk, Size(h), h);
  }

  lemma KidsAppended(g: seq<seq<ChunkRef>>, chunk: ChunkRef, s: nat, h: nat)
    requires g != [] && forall k :: 0 <= k < |g| ==> g[k] != []
    requires forall k :: 0 <= k < |Appended(g, chunk, s)| ==> Appended(g, chunk, s)[k] != []
    ensures var c := Kids(g, h);
            Kids(Appended(g, chunk, s), h)
            == if |Last(g)| < s then c[..|c| - 1] + [ChildOf(Last(g) + [chunk], h)] else c + [ChildOf([chunk], h)]
  {
  }

  // ---- what is stored ----------------------------------------------------------------------

  ghost predicate Stored(store: set<Digest>, d: Digest)
    decreases d
  {
    d in store && (d.node.Branch? ==> forall k :: 0 <= k < |d.node.children| ==>
                   Stored(store, d.node.children[k].digest))
  }

  ghost predicate StoredKids(store: set<Digest>, c: seq<Child>) {
    forall k :: 0 <= k < |c| ==> Stored(store, c[k].digest)
  }

  lemma {:induction false} StoredStays(store: set<Digest>, store': set<Digest>, d: Digest)
    requires Stored(store, d) && store <= store'
    ensures Stored(store', d)
    decreases d
  {
    if d.node.Branch? {
      forall k | 0 <= k < |d.node.children| ensures Stored(store', d.node.children[k].digest) {
        StoredStays(store, store', d.node.children[k].digest);
      }
    }
  }

  lemma StoredKidsStay(store: set<Digest>, store': set<Digest>, c: seq<Child>)
    requires StoredKids(store, c) && store <= store'
    ensures StoredKids(store', c)
  {
    forall k | 0 <= k < |c| ensures Stored(store', c[k].digest) {
      StoredStays(store, store', c[k].digest);
    }
  }

  lemma PutBranchStores(store: set<Digest>, h: nat, c: seq<Child>)
    requires ValidBranch(h, c) && StoredKids(store, c)
    ensures var w := PutNode(store, Branch(h, c));
            w.result == Ok(Digest(Branch(h, c))) && Stored(w.store, Digest(Branch(h, c)))
  {
    StoredKidsStay(store, store + {Digest(Branch(h, c))}, c);
  }
}
