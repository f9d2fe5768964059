/** What the stable-key index promises of insertion, lookup and shape. */
module HamtTheorems {
  import opened Words
  import opened Wrappers
  import opened Hamt
  import opened HamtProof

  predicate SameKey(S: set<Entry>, key: Key) {
    exists x :: x in S && x.key == key
  }

  predicate SamePath(S: set<Entry>, path: Path) {
    exists x :: x in S && x.key.path == path
  }

  /** Insertion under p met an entry with this key, one with this whole path, or
      built the reference tree of S and e. */
  ghost predicate Built(store: set<Digest>, w: Written<Digest>, S: set<Entry>, p: seq<nat>, e: Entry) {
    if SameKey(S, e.key) then w == Written(store, Err(RecoveryFailed))
    else if SamePath(S, e.key.path) then w == Written(store, Err(Rejected))
    else w.result == Ok(Digest(Build(S + {e}, p))) && Stored(w.store, Digest(Build(S + {e}, p)))
  }

  lemma InsertAtLeaf(store: set<Digest>, S: set<Entry>, p: seq<nat>, e: Entry, head: Head)
    requires 0 < |p| <= MAX_LEAF_DEPTH && Prefix(e.key.path, |p|) == p && |Below(S, p)| == 1
    requires Distinct(S) && AllValid(S, head) && ValidRange(e, head)
    ensures Built(store, InsertAt(store, Build(S, p), e, |p|, head), S, p, e)
  {
    var x := Only(Below(S, p));
    forall y | y in S && y.key.path == e.key.path ensures y == x {
      assert y in Below(S, p);
      SingleIs(Below(S, p), y);
    }
    if x.key != e.key {
      if |p| == MAX_LEAF_DEPTH {
        NibblesDeterminePath(x.key.path, e.key.path);
      } else {
        SplitBuilds(store, x, e, p, head);
        assert Below(S, p) == {x} by {
          forall y | y in Below(S, p) ensures y == x { SingleIs(Below(S, p), y); }
        }
        assert Below(S + {e}, p) == Below({x, e}, p);
        BuildLocal(S + {e}, {x, e}, p);
      }
    }
  }

  /** Putting the child that holds e back into a branch over S gives the branch
      over S and e. */
  lemma PutBack(store: set<Digest>, S: set<Entry>, p: seq<nat>, e: Entry)
    requires |p| <= MAX_DEPTH && Prefix(e.key.path, |p|) == p && e !in S
    requires p == [] || |Below(S, p)| > 1
    requires StoredSlots(store, Slots(S, p))
    requires Stored(store, Digest(Build(S + {e}, p + [Nibble(e.key.path, |p|)])))
    ensures var d := Digest(Build(S + {e}, p + [Nibble(e.key.path, |p|)]));
            var w := PutBranch(store, |p|, e.key.path, Upsert(Packed(Slots(S, p)), Nibble(e.key.path, |p|), d));
            w.result == Ok(Digest(Build(S + {e}, p))) && Stored(w.store, Digest(Build(S + {e}, p)))
  {
    hide Build, Prefix, Nibble, Upsert, Packed, Stored;
    var slot := Nibble(e.key.path, |p|);
    var d := Digest(Build(S + {e}, p + [slot]));
    SlotsAdd(S, e, p, d);
    UpsertPacked(Slots(S, p), slot, d);
    assert Below(S + {e}, p) == Below(S, p) + {e};
    BuildBranch(S + {e}, p);
    var store' := store + {Digest(Build(S + {e}, p))};
    forall s | 0 <= s < FANOUT && Slots(S + {e}, p)[s].Some? ensures Stored(store', Slots(S + {e}, p)[s].value) {
      StoredStays(store, store', Slots(S + {e}, p)[s].value);
    }
    BranchStored(store', |p|, p, Slots(S + {e}, p));
  }

  lemma SharesSlot(S: set<Entry>, p: seq<nat>, y: Entry)
    requires y in S && Prefix(y.key.path, |p|) == p
    ensures y in Below(S, p + [Nibble(y.key.path, |p|)])
  {
    PrefixSnoc(y.key.path, p, Nibble(y.key.path, |p|));
  }

  lemma EmptySlotIsFresh(S: set<Entry>, p: seq<nat>, path: Path)
    requires Prefix(path, |p|) == p && Below(S, p + [Nibble(path, |p|)]) == {}
    ensures !SamePath(S, path)
  {
    forall y | y in S ensures y.key.path != path {
      if y.key.path == path {
        SharesSlot(S, p, y);
      }
    }
  }

  lemma InsertAtEmptySlot(store: set<Digest>, S: set<Entry>, p: seq<nat>, e: Entry, head: Head)
    requires |p| <= MAX_DEPTH && Prefix(e.key.path, |p|) == p && (p == [] || |Below(S, p)| > 1)
    requires Stored(store, Digest(Build(S, p)))
    requires Below(S, p + [Nibble(e.key.path, |p|)]) == {}
    ensures Built(store, InsertAt(store, Build(S, p), e, |p|, head), S, p, e)
  {
    var slot := Nibble(e.key.path, |p|);
    EmptySlotIsFresh(S, p, e.key.path);
    BuildBranch(S, p);
    FindPacked(Slots(S, p), slot);
    BelowAdd(S, e, p, slot);
    assert {} + {e} == {e};
    SingleBuild(S + {e}, p + [slot], e);
    var store' := store + {Digest(Leaf(e))};
    StoredStays(store, store', Digest(Build(S, p)));
    BranchStored(store', |p|, p, Slots(S, p));
    PutBack(store', S, p, e);
  }

  lemma {:induction false} InsertAtBuilds(store: set<Digest>, S: set<Entry>, p: seq<nat>, e: Entry, head: Head)
    requires |p| <= MAX_LEAF_DEPTH && Prefix(e.key.path, |p|) == p && (p == [] || Below(S, p) != {})
    requires Distinct(S) && AllValid(S, head) && ValidRange(e, head) && Stored(store, Digest(Build(S, p)))
    ensures Built(store, InsertAt(store, Build(S, p), e, |p|, head), S, p, e)
    decreases MAX_LEAF_DEPTH - |p|
  {
    if p != [] && |Below(S, p)| == 1 {
      InsertAtLeaf(store, S, p, e, head);
    } else if |p| == MAX_LEAF_DEPTH {
      DeepIsSingle(S, p);
    } else if Below(S, p + [Nibble(e.key.path, |p|)]) == {} {
      InsertAtEmptySlot(store, S, p, e, head);
    } else {
      InsertAtBuildsBelow(store, S, p, e, head);
    }
  }

  lemma {:induction false} InsertAtBuildsBelow(store: set<Digest>, S: set<Entry>, p: seq<nat>, e: Entry, head: Head)
    requires |p| <= MAX_DEPTH && Prefix(e.key.path, |p|) == p && (p == [] || |Below(S, p)| > 1)
    requires Distinct(S) && AllValid(S, head) && ValidRange(e, head) && Stored(store, Digest(Build(S, p)))
    requires Below(S, p + [Nibble(e.key.path, |p|)]) != {}
    ensures Built(store, InsertAt(store, Build(S, p), e, |p|, head), S, p, e)
    decreases MAX_LEAF_DEPTH - |p|, 0
  {
    var slot := Nibble(e.key.path, |p|);
    var q := p + [slot];
    PrefixSnoc(e.key.path, p, slot);
    BuildBranch(S, p);
    BranchStored(store, |p|, p, Slots(S, p));
    FindPacked(Slots(S, p), slot);
    assert Slots(S, p)[slot] == Some(Digest(Build(S, q)));
    LoadBuild(store, S, q, e.key.path, head);
    InsertAtBuilds(store, S, q, e, head);
    if !SameKey(S, e.key) && !SamePath(S, e.key.path) {
      var w := InsertAt(store, Build(S, q), e, |q|, head);
      StoredStays(store, w.store, Digest(Build(S, p)));
      BranchStored(w.store, |p|, p, Slots(S, p));
      PutBack(w.store, S, p, e);
    }
  }

  // ---- the root ----------------------------------------------------------------------------------

  /** A root that stands for S under a head: nothing else is needed for every
      check of the index to pass. */
  ghost predicate Represents(store: set<Digest>, root: Root, S: set<Entry>, head: Head) {
    && Distinct(S) && AllValid(S, head) && |S| <= head.headSeq
    && root == Root(Digest(Build(S, [])), |S|)
    && Stored(store, root.digest)
  }

  lemma RootLoads(store: set<Digest>, root: Root, S: set<Entry>, head: Head, walk: Path)
    requires Represents(store, root, S, head)
    ensures CheckRoot(store, root, walk, head) == Ok(Build(S, []))
  {
    LoadBuild(store, S, [], walk, head);
    BuildBranch(S, []);
    if S == {} {
      EmptySlots([]);
    } else {
      var x := Only(S);
      var slot := Nibble(x.key.path, 0);
      PrefixSnoc(x.key.path, [], slot);
      assert x in Below(S, [] + [slot]);
      FindPacked(Slots(S, []), slot);
    }
  }

  lemma EmptyRepresents(store: set<Digest>, head: Head)
    ensures var w := EmptyRoot(store);
            w.result.Ok? && Represents(w.store, w.result.value, {}, head)
  {
    EmptySlots([]);
    BuildBranch({}, []);
    BranchStored(EmptyRoot(store).store, 0, [], Slots({}, []));
  }

  /** Insertion refines adding one binding. It answers "already present" exactly
      for a stored key, "path collision" exactly for a fresh key whose whole
      256-bit path a stored key has, and otherwise yields the root of S and the
      entry; the count overflows only at the last 64-bit value. */
  lemma InsertRefines(store: set<Digest>, root: Root, S: set<Entry>, e: Entry, head: Head)
    requires Represents(store, root, S, head) && ValidRange(e, head)
    ensures var w := Insert(store, root, e, head);
            if SameKey(S, e.key) then w == Written(store, Err(RecoveryFailed))
            else if SamePath(S, e.key.path) then w == Written(store, Err(Rejected))
            else if |S| == U64_MAX then w.result == Err(Rejected)
            else w.result == Ok(Root(Digest(Build(S + {e}, [])), |S + {e}|)) && |S + {e}| == |S| + 1
                 && Distinct(S + {e}) && AllValid(S + {e}, head) && Stored(w.store, w.result.value.digest)
  {
    hide Build, Stored, InsertAt, CheckRoot;
    RootLoads(store, root, S, head, e.key.path);
    InsertAtBuilds(store, S, [], e, head);
  }

  /** The head a later operation presents may be larger, never smaller. */
  lemma RepresentsUnderLaterHead(store: set<Digest>, root: Root, S: set<Entry>, head: Head, later: Head)
    requires Represents(store, root, S, head) && head.generation <= later.generation && head.headSeq <= later.headSeq
    ensures Represents(store, root, S, later)
  {
  }

  /** Whatever is written later, an older root still stands for its own entries. */
  lemma OldRootsStay(store: set<Digest>, root: Root, S: set<Entry>, head: Head, later: Root, e: Entry, laterHead: Head)
    requires Represents(store, root, S, head)
    ensures Represents(Insert(store, later, e, laterHead).store, root, S, head)
  {
    StoredStays(store, Insert(store, later, e, laterHead).store, root.digest);
  }

  // ---- lookup ----------------------------------------------------------------------------------------

  /** The answer a lookup of key owes when S is stored. */
  ghost predicate Exact(S: set<Entry>, key: Key, r: Result<Option<Entry>, Error>) {
    r.Ok? && forall e :: r.value == Some(e) <==> e in S && e.key == key
  }

  lemma LeafAnswers(S: set<Entry>, p: seq<nat>, key: Key)
    requires Distinct(S) && Prefix(key.path, |p|) == p && |Below(S, p)| == 1
    ensures var x := Only(Below(S, p));
            Exact(S, key, Ok(if x.key == key then Some(x) else None))
  {
    forall e | e in S && e.key == key ensures e == Only(Below(S, p)) {
      assert e in Below(S, p);
      SingleIs(Below(S, p), e);
    }
  }

  lemma {:induction false} WalkFinds(store: set<Digest>, S: set<Entry>, p: seq<nat>, key: Key, head: Head)
    requires |p| <= MAX_LEAF_DEPTH && Prefix(key.path, |p|) == p && (p == [] || Below(S, p) != {})
    requires Distinct(S) && AllValid(S, head) && Stored(store, Digest(Build(S, p)))
    ensures Exact(S, key, Walk(store, Digest(Build(S, p)), key, |p|, head))
    decreases MAX_LEAF_DEPTH - |p|
  {
    LoadBuild(store, S, p, key.path, head);
    if p != [] && |Below(S, p)| == 1 {
      LeafAnswers(S, p, key);
    } else if |p| == MAX_LEAF_DEPTH {
      DeepIsSingle(S, p);
    } else {
      WalkBranch(store, S, p, key, head);
    }
  }

  lemma {:induction false} WalkBranch(store: set<Digest>, S: set<Entry>, p: seq<nat>, key: Key, head: Head)
    requires |p| <= MAX_DEPTH && Prefix(key.path, |p|) == p && (p == [] || |Below(S, p)| > 1)
    requires Distinct(S) && AllValid(S, head) && Stored(store, Digest(Build(S, p)))
    requires LoadNode(store, Digest(Build(S, p)), key.path, |p|, head) == Ok(Build(S, p))
    ensures Exact(S, key, Walk(store, Digest(Build(S, p)), key, |p|, head))
    decreases MAX_LEAF_DEPTH - |p|, 0
  {
    var slot := Nibble(key.path, |p|);
    BuildBranch(S, p);
    FindPacked(Slots(S, p), slot);
    if Below(S, p + [slot]) != {} {
      BranchStored(store, |p|, p, Slots(S, p));
      assert Slots(S, p)[slot] == Some(Digest(Build(S, p + [slot])));
      PrefixSnoc(key.path, p, slot);
      WalkFinds(store, S, p + [slot], key, head);
    } else {
      EmptySlotIsFresh(S, p, key.path);
      assert forall e :: e in S ==> e.key != key;
    }
  }

  /** Lookup answers with an entry exactly when it is stored under that key, and
      never reports an integrity failure. */
  lemma LookupExact(store: set<Digest>, root: Root, S: set<Entry>, key: Key, head: Head)
    requires Represents(store, root, S, head)
    ensures Exact(S, key, LookupSpec(store, root, key, head))
  {
    RootLoads(store, root, S, head, key.path);
    WalkFinds(store, S, [], key, head);
  }

  // ---- canonical shape ------------------------------------------------------------------------------------

  /** Inserting a sequence of entries, stopping at the first error. */
  function InsertAll(store: set<Digest>, root: Root, es: seq<Entry>, head: Head): (w: Written<Root>)
    ensures store <= w.store
  {
    if es == [] then Written(store, Ok(root))
    else
      var w := InsertAll(store, root, es[..|es| - 1], head);
      match w.result
      case Err(_) => w
      case Ok(r) => Insert(w.store, r, es[|es| - 1], head)
  }

  function SetOf(es: seq<Entry>): set<Entry> {
    set x | x in es
  }

  predicate Insertable(es: seq<Entry>, head: Head) {
    && (forall j, k :: 0 <= j < k < |es| ==> es[j].key.path != es[k].key.path)
    && (forall k :: 0 <= k < |es| ==> ValidRange(es[k], head))
    && |es| <= head.headSeq && |es| <= U64_MAX
  }

  lemma LastIsFresh(es: seq<Entry>, head: Head)
    requires Insertable(es, head) && es != []
    ensures var rest, e := es[..|es| - 1], es[|es| - 1];
            Insertable(rest, head) && SetOf(es) == SetOf(rest) + {e} && !SamePath(SetOf(rest), e.key.path)
  {
    var rest, e := es[..|es| - 1], es[|es| - 1];
    assert es == rest + [e];
    forall x | x in SetOf(rest) ensures x.key.path != e.key.path {
      var k :| 0 <= k < |rest| && rest[k] == x;
      assert es[k] == x;
    }
  }

  lemma {:induction false} InsertAllBuilds(store: set<Digest>, root: Root, es: seq<Entry>, head: Head)
    requires Insertable(es, head) && Represents(store, root, {}, head)
    ensures var w := InsertAll(store, root, es, head);
            w.result.Ok? && Represents(w.store, w.result.value, SetOf(es), head) && |SetOf(es)| == |es|
  {
    if es == [] {
      assert SetOf(es) == {};
    } else {
      var rest, e := es[..|es| - 1], es[|es| - 1];
      LastIsFresh(es, head);
      InsertAllBuilds(store, root, rest, head);
      var w := InsertAll(store, root, rest, head);
      InsertRefines(w.store, w.result.value, SetOf(rest), e, head);
    }
  }

  /** Two orders of the same entries end in the same root digest. */
  lemma Canonical(store: set<Digest>, store': set<Digest>, es: seq<Entry>, es': seq<Entry>, head: Head)
    requires Insertable(es, head) && Insertable(es', head) && SetOf(es) == SetOf(es')
    ensures var a := InsertAll(EmptyRoot(store).store, EmptyRoot(store).result.value, es, head);
            var b := InsertAll(EmptyRoot(store').store, EmptyRoot(store').result.value, es', head);
            a.result.Ok? && b.result == a.result
  {
    EmptyRepresents(store, head);
    EmptyRepresents(store', head);
    InsertAllBuilds(EmptyRoot(store).store, EmptyRoot(store).result.value, es, head);
    InsertAllBuilds(EmptyRoot(store').store, EmptyRoot(store').result.value, es', head);
  }

  /** The node reached from a digest by following slots, if any. */
  function Follow(d: Digest, walk: seq<nat>): Option<Node>
    decreases |walk|
  {
    if walk == [] then Some(d.node)
    else
      match d.node
      case Leaf(_) => None
      case Branch(_, _, children) =>
        match FindChild(children, walk[0])
        case None => None
        case Some(next) => Follow(next, walk[1..])
  }

  /** Following slots from the node at p reaches the reference node of the longer
      prefix, as long as a branch is left to follow. */
  lemma {:induction false} FollowReaches(S: set<Entry>, p: seq<nat>, walk: seq<nat>)
    requires Distinct(S) && |p| + |walk| <= MAX_LEAF_DEPTH && (p == [] || Below(S, p) != {})
    requires forall k :: 0 <= k < |walk| ==> walk[k] < FANOUT
    ensures var r := Follow(Digest(Build(S, p)), walk);
            && (|Below(S, p + walk)| >= 2 ==> r == Some(Build(S, p + walk)))
            && (|Below(S, p + walk)| == 0 && p + walk != [] ==> r.None?)
            && (|Below(S, p + walk)| == 1 && p + walk != [] && r.Some? ==> r.value == Build(S, p + walk))
    decreases |walk|
  {
    if walk == [] {
      assert p + walk == p;
    } else {
      var q := p + [walk[0]];
      assert p + walk == q + walk[1..];
      BelowShrinks(S, p, walk);
      BelowShrinks(S, q, walk[1..]);
      if p != [] && |Below(S, p)| == 1 {
      } else {
        BuildBranch(S, p);
        FindPacked(Slots(S, p), walk[0]);
        if Below(S, q) != {} {
          FollowReaches(S, q, walk[1..]);
        }
      }
    }
  }

  lemma BelowShrinks(S: set<Entry>, p: seq<nat>, walk: seq<nat>)
    ensures Below(S, p + walk) <= Below(S, p) && |Below(S, p + walk)| <= |Below(S, p)|
  {
    forall x | x in Below(S, p + walk) ensures x in Below(S, p) {
      assert Prefix(x.key.path, |p|) == Prefix(x.key.path, |p + walk|)[..|p|] == p;
    }
    Smaller(Below(S, p + walk), Below(S, p));
  }

  lemma Smaller(A: set<Entry>, B: set<Entry>)
    requires A <= B
    ensures |A| <= |B|
  {
    assert B == A + (B - A);
  }

  /** A branch below the root stands exactly where two or more keys share that
      prefix. */
  lemma BranchIffShared(S: set<Entry>, walk: seq<nat>)
    requires Distinct(S) && 0 < |walk| <= MAX_LEAF_DEPTH && forall k :: 0 <= k < |walk| ==> walk[k] < FANOUT
    ensures (var r := Follow(Digest(Build(S, [])), walk); r.Some? && r.value.Branch?) <==> |Below(S, walk)| >= 2
  {
    FollowReaches(S, [], walk);
    assert [] + walk == walk;
    if |Below(S, walk)| >= 2 {
      if |walk| == MAX_LEAF_DEPTH {
        DeepIsSingle(S, walk);
      }
      BuildBranch(S, walk);
    }
  }
}
