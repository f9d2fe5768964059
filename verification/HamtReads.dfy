/** What a lookup accepts on any store, well made or not: it answers exactly when
    the nodes on the way down the key's path stand where they should. */
module HamtReads {
  import opened Wrappers
  import opened Hamt

  /** A stored node that may stand at a depth on the way down a path. */
  predicate Stands(store: set<Digest>, d: Digest, path: Path, depth: nat, head: Head) {
    && d in store
    && match d.node
       case Branch(at, prefix, children) =>
         && at == depth <= MAX_DEPTH && |prefix| == depth
         && (forall k :: 0 <= k < depth ==> prefix[k] == Nibble(path, k))
         && |children| <= 32 && (forall k :: 0 <= k < |children| ==> children[k].slot < 32)
         && (forall j, k :: 0 <= j < k < |children| ==> children[j].slot < children[k].slot)
       case Leaf(e) =>
         && (forall k :: 0 <= k < depth ==> Nibble(e.key.path, k) == Nibble(path, k))
         && 1 <= e.first <= e.last <= head.headSeq && 1 <= e.generation <= head.generation
  }

  lemma {:induction false} Ascends(children: seq<Child>, j: nat, k: nat)
    requires StrictSlots(children) && j < k < |children|
    ensures children[j].slot < children[k].slot
  {
    if j + 1 < k {
      Ascends(children, j, k - 1);
    }
    assert children[k - 1].slot < children[k - 1 + 1].slot;
  }

  lemma SlotsAscend(children: seq<Child>)
    ensures StrictSlots(children)
            <==> && |children| <= 32 && (forall k :: 0 <= k < |children| ==> children[k].slot < 32)
                 && (forall j, k :: 0 <= j < k < |children| ==> children[j].slot < children[k].slot)
  {
    if StrictSlots(children) {
      forall j, k | 0 <= j < k < |children| ensures children[j].slot < children[k].slot {
        Ascends(children, j, k);
      }
    }
  }

  lemma SamePrefix(walk: Path, path: Path, depth: nat)
    ensures Prefix(path, depth) == Prefix(walk, depth)
            <==> forall k :: 0 <= k < depth ==> Nibble(path, k) == Nibble(walk, k)
  {
    hide Nibble;
    if Prefix(path, depth) == Prefix(walk, depth) {
      forall k | 0 <= k < depth ensures Nibble(path, k) == Nibble(walk, k) {
        assert Prefix(path, depth)[k] == Prefix(walk, depth)[k];
      }
    }
  }

  lemma LoadsExactly(store: set<Digest>, d: Digest, path: Path, depth: nat, head: Head)
    ensures LoadNode(store, d, path, depth, head)
            == if Stands(store, d, path, depth, head) then Ok(d.node) else Err(Integrity)
  {
    hide Nibble, StrictSlots;
    match d.node
    case Branch(_, prefix, children) =>
      SlotsAscend(children);
      if |prefix| == depth && forall k :: 0 <= k < depth ==> prefix[k] == Nibble(path, k) {
        assert prefix == Prefix(path, depth);
      }
    case Leaf(e) => SamePrefix(path, e.key.path, depth);
  }

  lemma {:induction false} FindsChild(children: seq<Child>, slot: nat)
    requires forall j, k :: 0 <= j < k < |children| ==> children[j].slot < children[k].slot
    ensures forall d :: FindChild(children, slot) == Some(d) <==> Child(slot, d) in children
    ensures FindChild(children, slot) == None <==> forall c :: c in children ==> c.slot != slot
  {
    if children != [] {
      assert children == [children[0]] + children[1..];
      FindsChild(children[1..], slot);
      assert forall c :: c in children[1..] ==> c.slot > children[0].slot;
    }
  }

  /** The way down a path from a depth: each node is its parent's child in the
      path's slot. */
  predicate Way(store: set<Digest>, path: Path, depth: nat, head: Head, way: seq<Digest>)
    decreases |way|
  {
    && way != []
    && Stands(store, way[0], path, depth, head)
    && (|way| > 1 ==>
          && way[0].node.Branch? && Child(Nibble(path, depth), way[1]) in way[0].node.children
          && Way(store, path, depth + 1, head, way[1..]))
  }

  /** What the end of a way says of a key: the entry of a leaf, if it is the key's,
      and nothing if the last branch has no child in the slot. */
  predicate Says(way: seq<Digest>, key: Key, depth: nat, r: Option<Entry>)
    requires way != []
  {
    match way[|way| - 1].node
    case Leaf(e) => r == if e.key == key then Some(e) else None
    case Branch(at, _, children) => r == None && forall c :: c in children ==> c.slot != Nibble(key.path, at)
  }

  lemma {:induction false} WalkHasWay(store: set<Digest>, digest: Digest, key: Key, depth: nat, head: Head)
    returns (way: seq<Digest>)
    requires Walk(store, digest, key, depth, head).Ok?
    ensures way != [] && way[0] == digest && Way(store, key.path, depth, head, way)
    ensures Says(way, key, depth, Walk(store, digest, key, depth, head).value)
    decreases MAX_LEAF_DEPTH + 1 - depth
  {
    hide Nibble, LoadNode, Stands;
    LoadsExactly(store, digest, key.path, depth, head);
    way := [digest];
    if digest.node.Branch? {
      StoodBranch(store, digest, key.path, depth, head);
      FindsChild(digest.node.children, Nibble(key.path, depth));
      var next := FindChild(digest.node.children, Nibble(key.path, depth));
      if next.Some? {
        var rest := WalkHasWay(store, next.value, key, depth + 1, head);
        way := [digest] + rest;
        assert way[1..] == rest;
      }
    }
  }

  lemma StoodBranch(store: set<Digest>, d: Digest, path: Path, depth: nat, head: Head)
    requires Stands(store, d, path, depth, head) && d.node.Branch?
    ensures d.node.depth == depth <= MAX_DEPTH
    ensures forall j, k :: 0 <= j < k < |d.node.children| ==> d.node.children[j].slot < d.node.children[k].slot
  {
  }

  lemma {:induction false} WayIsWalked(store: set<Digest>, way: seq<Digest>, key: Key, depth: nat, head: Head,
                                       r: Option<Entry>)
    requires Way(store, key.path, depth, head, way) && Says(way, key, depth, r) && depth <= MAX_LEAF_DEPTH
    ensures Walk(store, way[0], key, depth, head) == Ok(r)
    decreases |way|
  {
    hide Nibble, LoadNode, Stands;
    LoadsExactly(store, way[0], key.path, depth, head);
    if way[0].node.Branch? {
      StoodBranch(store, way[0], key.path, depth, head);
      FindsChild(way[0].node.children, Nibble(key.path, depth));
      if |way| > 1 {
        WayIsWalked(store, way[1..], key, depth + 1, head, r);
      }
    }
  }

  lemma {:induction false} WayEnds(store: set<Digest>, path: Path, depth: nat, head: Head, way: seq<Digest>)
    requires Way(store, path, depth, head, way)
    ensures Stands(store, way[|way| - 1], path, depth + |way| - 1, head)
    decreases |way|
  {
    hide Stands;
    if |way| > 1 {
      WayEnds(store, path, depth + 1, head, way[1..]);
    }
  }

  lemma {:induction false} WalkFails(store: set<Digest>, digest: Digest, key: Key, depth: nat, head: Head)
    ensures Walk(store, digest, key, depth, head).Err? ==> Walk(store, digest, key, depth, head) == Err(Integrity)
    decreases MAX_LEAF_DEPTH + 1 - depth
  {
    hide Nibble, Prefix, StrictSlots, ValidRange, FindChild;
    if depth <= MAX_LEAF_DEPTH && digest.node.Branch? {
      var next := FindChild(digest.node.children, Nibble(key.path, depth));
      if next.Some? {
        WalkFails(store, next.value, key, depth + 1, head);
      }
    }
  }

  /** Some way down the key's path answers so. */
  ghost predicate Answered(store: set<Digest>, digest: Digest, key: Key, head: Head, r: Option<Entry>) {
    exists way: seq<Digest> ::
      way != [] && way[0] == digest && Way(store, key.path, 0, head, way) && Says(way, key, 0, r)
  }

  lemma WalkExactly(store: set<Digest>, digest: Digest, key: Key, head: Head, r: Option<Entry>)
    ensures Walk(store, digest, key, 0, head) == Ok(r) <==> Answered(store, digest, key, head, r)
  {
    hide Walk, Way, Says;
    if Walk(store, digest, key, 0, head) == Ok(r) {
      var way := WalkHasWay(store, digest, key, 0, head);
      assert way[0] == digest && Says(way, key, 0, r);
    }
    if Answered(store, digest, key, head, r) {
      var way: seq<Digest> :|
        way != [] && way[0] == digest && Way(store, key.path, 0, head, way) && Says(way, key, 0, r);
      WayIsWalked(store, way, key, 0, head, r);
    }
  }

  lemma EmptyWalk(store: set<Digest>, digest: Digest, key: Key, head: Head)
    requires digest.node == Branch(0, [], [])
    ensures Walk(store, digest, key, 0, head) == if digest in store then Ok(None) else Err(Integrity)
  {
    hide Nibble;
  }

  /** On any store: a lookup answers exactly when the root's count agrees with the
      head and with the root node and a way leads down the key's path, and its
      answer is what the end of the way says; anything else is an integrity
      failure. */
  lemma LookupOnAnyStore(store: set<Digest>, root: Root, key: Key, head: Head, r: Option<Entry>)
    ensures LookupSpec(store, root, key, head) == Ok(r)
            <==> && root.entries <= head.headSeq && (root.entries == 0 <==> root.digest.node == Branch(0, [], []))
                 && Answered(store, root.digest, key, head, r)
    ensures LookupSpec(store, root, key, head).Err? ==> LookupSpec(store, root, key, head) == Err(Integrity)
  {
    WalkExactly(store, root.digest, key, head, r);
    WalkFails(store, root.digest, key, 0, head);
    LoadedRoot(store, root.digest, key.path, head);
    WalkLoads(store, root.digest, key, head);
    if root.digest.node == Branch(0, [], []) {
      EmptyWalk(store, root.digest, key, head);
    }
    hide LoadNode, Walk, Answered;
    var loaded := LoadNode(store, root.digest, key.path, 0, head);
    assert loaded.Ok? ==> (CheckRootShape(root, loaded.value)
                           <==> (root.entries == 0 <==> root.digest.node == Branch(0, [], [])));
    if root.entries > head.headSeq || loaded.Err? {
      assert LookupSpec(store, root, key, head) == Err(Integrity);
    } else if root.entries == 0 {
      assert CheckRootShape(root, loaded.value) ==> LookupSpec(store, root, key, head) == Ok(None);
    }
  }

  lemma LoadedRoot(store: set<Digest>, digest: Digest, path: Path, head: Head)
    ensures var r := LoadNode(store, digest, path, 0, head);
            && (r.Err? ==> r == Err(Integrity))
            && (r.Ok? ==> r.value == digest.node && (r.value.Branch? ==> r.value.depth == 0 && r.value.prefix == []))
  {
    assert Prefix(path, 0) == [];
    hide Prefix, StrictSlots, ValidRange;
  }

  lemma WalkLoads(store: set<Digest>, digest: Digest, key: Key, head: Head)
    ensures Walk(store, digest, key, 0, head).Ok? ==> LoadNode(store, digest, key.path, 0, head).Ok?
  {
    hide LoadNode;
  }
}
