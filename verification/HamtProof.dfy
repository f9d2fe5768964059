/** The index refines a finite map and has one canonical shape: after any
    inserts its root is the reference tree of the set of entries, a definition
    that knows nothing of insertion. */
module HamtProof {
  import opened Wrappers
  import opened Bits
  import opened Hamt

  // ---- the reference tree -------------------------------------------------------

  ghost predicate Distinct(S: set<Entry>) {
    forall x, y :: x in S && y in S && x.key.path == y.key.path ==> x == y
  }

  predicate StartsWith(x: Entry, p: seq<nat>) {
    Prefix(x.key.path, |p|) == p
  }

  /** Entries whose path starts with p. */
  ghost function Below(S: set<Entry>, p: seq<nat>): set<Entry> {
    set x | x in S && StartsWith(x, p)
  }

  ghost function Only(S: set<Entry>): (e: Entry)
    requires S != {}
    ensures e in S
  {
    var e :| e in S;
    e
  }

  /** The tree of S under p: a leaf where exactly one entry is left, a branch
      over the occupied slots otherwise; the root is always a branch. The last
      case is only met by entries that share a whole path. */
  ghost function Build(S: set<Entry>, p: seq<nat>): Node
    decreases MAX_LEAF_DEPTH - |p|
  {
    var T := Below(S, p);
    if |p| > 0 && |T| == 1 then Leaf(Only(T))
    else if |p| > MAX_DEPTH then Branch(|p|, p, [])
    else Branch(|p|, p, Packed(seq(FANOUT, s requires 0 <= s < FANOUT =>
      if Below(S, p + [s]) == {} then None else Some(Digest(Build(S, p + [s]))))))
  }

  ghost function Slot(S: set<Entry>, p: seq<nat>, s: nat): Option<Digest> {
    if Below(S, p + [s]) == {} then None else Some(Digest(Build(S, p + [s])))
  }

  ghost function Slots(S: set<Entry>, p: seq<nat>): (c: seq<Option<Digest>>)
    ensures |c| == FANOUT && forall s :: 0 <= s < FANOUT ==> c[s] == Slot(S, p, s)
  {
    seq(FANOUT, s requires 0 <= s < FANOUT => Slot(S, p, s))
  }

  /** The occupied slots, in order. */
  function Packed(c: seq<Option<Digest>>): (r: seq<Child>)
    ensures |r| <= |c|
    ensures forall k :: 0 <= k < |r| ==> r[k].slot < |c|
    ensures forall j, k :: 0 <= j < k < |r| ==> r[j].slot < r[k].slot
  {
    if c == [] then []
    else
      var rest := Packed(c[..|c| - 1]);
      if c[|c| - 1].None? then rest else rest + [Child(|c| - 1, c[|c| - 1].value)]
  }

  lemma BuildBranch(S: set<Entry>, p: seq<nat>)
    requires |p| <= MAX_DEPTH && (p == [] || |Below(S, p)| != 1)
    ensures Build(S, p) == Branch(|p|, p, Packed(Slots(S, p)))
  {
    assert seq(FANOUT, s requires 0 <= s < FANOUT =>
      if Below(S, p + [s]) == {} then None else Some(Digest(Build(S, p + [s])))) == Slots(S, p);
  }

  /** Every node reachable from d is stored. */
  ghost predicate Stored(store: set<Digest>, d: Digest)
    decreases d
  {
    d in store && (d.node.Branch? ==> forall k :: 0 <= k < |d.node.children| ==>
                   Stored(store, d.node.children[k].digest))
  }

  lemma {:induction false} StoredStays(store: set<Digest>, store': set<Digest>, d: Digest)
    requires Stored(store, d) && store <= store'
    ensures Stored(store', d)
    decreases d
  {
    if d.node.Branch? {
      forall k | 0 <= k < |d.node.children| ensures Stored(store', d.node.children[k].digest) {
        StoredStays(store, store', d.node.children[k].digest);
      }
    }
  }

  // ---- prefixes -----------------------------------------------------------------------

  lemma PrefixSnoc(path: Path, p: seq<nat>, s: nat)
    ensures Prefix(path, |p| + 1) == p + [s] <==> Prefix(path, |p|) == p && Nibble(path, |p|) == s
  {
    var q := Prefix(path, |p| + 1);
    assert q == Prefix(path, |p|) + [Nibble(path, |p|)];
    if q == p + [s] {
      assert q[..|p|] == p && q[|p|] == s;
      assert Prefix(path, |p|) == q[..|p|];
    }
  }

  ghost function OnSlot(T: set<Entry>, depth: nat, s: nat): set<Entry> {
    set x | x in T && Nibble(x.key.path, depth) == s
  }

  lemma BelowSnoc(S: set<Entry>, p: seq<nat>, s: nat)
    ensures Below(S, p + [s]) == OnSlot(Below(S, p), |p|, s)
  {
    forall x | x in S
      ensures StartsWith(x, p + [s]) <==> StartsWith(x, p) && Nibble(x.key.path, |p|) == s
    {
      PrefixSnoc(x.key.path, p, s);
    }
  }

  lemma BelowAdd(S: set<Entry>, e: Entry, p: seq<nat>, s: nat)
    requires Prefix(e.key.path, |p|) == p
    ensures Below(S + {e}, p + [s])
            == if s == Nibble(e.key.path, |p|) then Below(S, p + [s]) + {e} else Below(S, p + [s])
  {
    BelowSnoc(S, p, s);
    BelowSnoc(S + {e}, p, s);
    assert Below(S + {e}, p) == Below(S, p) + {e};
  }

  /** The 52 padded groups determine all 256 bits of a path. */
  lemma NibblesDeterminePath(a: Path, b: Path)
    requires Prefix(a, MAX_LEAF_DEPTH) == Prefix(b, MAX_LEAF_DEPTH)
    ensures a == b
  {
    forall k | 0 <= k && 5 * k < 8 * |a| ensures Group(a, k) == Group(b, k) {
      assert Prefix(a, MAX_LEAF_DEPTH)[k] == Prefix(b, MAX_LEAF_DEPTH)[k];
    }
    GroupsDetermine(a, b);
  }

  lemma DeepIsSingle(S: set<Entry>, p: seq<nat>)
    requires Distinct(S) && |p| == MAX_LEAF_DEPTH && Below(S, p) != {}
    ensures |Below(S, p)| == 1
  {
    var T := Below(S, p);
    var e := Only(T);
    forall x | x in T ensures x == e {
      NibblesDeterminePath(x.key.path, e.key.path);
    }
    assert T == {e};
  }

  lemma SingleIs(S: set<Entry>, e: Entry)
    requires |S| == 1 && e in S
    ensures Only(S) == e
  {
    assert |S - {e}| == 0;
  }

  // ---- what a tree depends on --------------------------------------------------------------

  /** A subtree depends only on the entries below its prefix. */
  lemma {:induction false} BuildLocal(S: set<Entry>, T: set<Entry>, p: seq<nat>)
    requires Below(S, p) == Below(T, p)
    ensures Build(S, p) == Build(T, p)
    decreases MAX_LEAF_DEPTH - |p|
  {
    if |p| <= MAX_DEPTH && (p == [] || |Below(S, p)| != 1) {
      forall s | 0 <= s < FANOUT ensures Slot(S, p, s) == Slot(T, p, s) {
        BelowSnoc(S, p, s);
        BelowSnoc(T, p, s);
        BuildLocal(S, T, p + [s]);
      }
      assert Slots(S, p) == Slots(T, p);
      BuildBranch(S, p);
      BuildBranch(T, p);
    }
  }

  /** Adding e changes exactly the child on e's slot. */
  lemma SlotAdd(S: set<Entry>, e: Entry, p: seq<nat>, s: nat)
    requires |p| <= MAX_DEPTH && Prefix(e.key.path, |p|) == p
    ensures Slot(S + {e}, p, s)
            == if s == Nibble(e.key.path, |p|) then Some(Digest(Build(S + {e}, p + [s]))) else Slot(S, p, s)
  {
    BelowAdd(S, e, p, s);
    if s != Nibble(e.key.path, |p|) {
      BuildLocal(S + {e}, S, p + [s]);
    } else {
      assert e in Below(S + {e}, p + [s]);
    }
  }

  lemma SlotsUpdate(S: set<Entry>, T: set<Entry>, p: seq<nat>, slot: nat, d: Digest)
    requires slot < FANOUT
    requires forall s: nat :: s < FANOUT ==> Slot(T, p, s) == if s == slot then Some(d) else Slot(S, p, s)
    ensures Slots(T, p) == Slots(S, p)[slot := Some(d)]
  {
    var a, b := Slots(T, p), Slots(S, p)[slot := Some(d)];
    forall s | 0 <= s < FANOUT ensures a[s] == b[s] {
      assert a[s] == Slot(T, p, s);
    }
    assert a == b;
  }

  lemma SlotsAdd(S: set<Entry>, e: Entry, p: seq<nat>, d: Digest)
    requires |p| <= MAX_DEPTH && Prefix(e.key.path, |p|) == p
    requires d == Digest(Build(S + {e}, p + [Nibble(e.key.path, |p|)]))
    ensures Slots(S + {e}, p) == Slots(S, p)[Nibble(e.key.path, |p|) := Some(d)]
  {
    forall s: nat | s < FANOUT
      ensures Slot(S + {e}, p, s) == if s == Nibble(e.key.path, |p|) then Some(d) else Slot(S, p, s)
    {
      SlotAdd(S, e, p, s);
    }
    SlotsUpdate(S, S + {e}, p, Nibble(e.key.path, |p|), d);
  }

  // ---- packed slots ---------------------------------------------------------------------------

  lemma FindSnoc(children: seq<Child>, last: Child, slot: nat)
    ensures FindChild(children + [last], slot)
            == if FindChild(children, slot).Some? then FindChild(children, slot)
               else if last.slot == slot then Some(last.digest) else None
  {
    if children != [] {
      assert (children + [last])[1..] == children[1..] + [last];
      FindSnoc(children[1..], last, slot);
    } else {
      assert children + [last] == [last];
    }
  }

  lemma {:induction false} FindPacked(c: seq<Option<Digest>>, slot: nat)
    ensures FindChild(Packed(c), slot) == if slot < |c| then c[slot] else None
  {
    if c != [] {
      FindPacked(c[..|c| - 1], slot);
      if c[|c| - 1].Some? {
        FindSnoc(Packed(c[..|c| - 1]), Child(|c| - 1, c[|c| - 1].value), slot);
      }
    }
  }

  lemma {:induction false} UpsertPacked(c: seq<Option<Digest>>, slot: nat, d: Digest)
    requires slot < |c|
    ensures Upsert(Packed(c), slot, d) == Packed(c[slot := Some(d)])
  {
    var rest, last := c[..|c| - 1], c[|c| - 1];
    var c' := c[slot := Some(d)];
    if slot == |c| - 1 {
      assert c'[..|c| - 1] == rest;
      if last.Some? {
        assert (Packed(rest) + [Child(slot, last.value)])[..|Packed(rest)|] == Packed(rest);
      }
    } else {
      assert c'[..|c| - 1] == rest[slot := Some(d)];
      UpsertPacked(rest, slot, d);
      if last.Some? {
        assert (Packed(rest) + [Child(|c| - 1, last.value)])[..|Packed(rest)|] == Packed(rest);
      }
    }
  }

  lemma {:induction false} PackedNothing(c: seq<Option<Digest>>)
    requires forall s :: 0 <= s < |c| ==> c[s].None?
    ensures Packed(c) == []
  {
    if c != [] {
      PackedNothing(c[..|c| - 1]);
    }
  }

  ghost predicate StoredSlots(store: set<Digest>, c: seq<Option<Digest>>) {
    forall s :: 0 <= s < |c| && c[s].Some? ==> Stored(store, c[s].value)
  }

  ghost predicate StoredChildren(store: set<Digest>, children: seq<Child>) {
    forall k :: 0 <= k < |children| ==> Stored(store, children[k].digest)
  }

  lemma {:induction false} PackedStored(store: set<Digest>, c: seq<Option<Digest>>)
    ensures StoredChildren(store, Packed(c)) <==> StoredSlots(store, c)
  {
    if c != [] {
      var rest, last := c[..|c| - 1], c[|c| - 1];
      PackedStored(store, rest);
      assert StoredSlots(store, c) <==> StoredSlots(store, rest) && (last.Some? ==> Stored(store, last.value));
      var r := Packed(rest);
      if last.Some? {
        assert Packed(c)[|r|] == Child(|c| - 1, last.value);
        assert forall k :: 0 <= k < |r| ==> Packed(c)[k] == r[k];
        assert StoredChildren(store, Packed(c)) <==> StoredChildren(store, r) && Stored(store, last.value);
      }
    }
  }

  lemma BranchStored(store: set<Digest>, depth: nat, p: seq<nat>, c: seq<Option<Digest>>)
    ensures var d := Digest(Branch(depth, p, Packed(c)));
            Stored(store, d) <==> d in store && StoredSlots(store, c)
  {
    PackedStored(store, c);
  }

  // ---- reading the reference tree ------------------------------------------------------------

  ghost predicate AllValid(S: set<Entry>, head: Head) {
    forall x :: x in S ==> ValidRange(x, head)
  }

  /** No check of load_node fires on a tree built from valid entries. */
  lemma LoadBuild(store: set<Digest>, S: set<Entry>, q: seq<nat>, walk: Path, head: Head)
    requires Distinct(S) && AllValid(S, head) && |q| <= MAX_LEAF_DEPTH
    requires Digest(Build(S, q)) in store && Prefix(walk, |q|) == q
    requires q == [] || Below(S, q) != {}
    ensures LoadNode(store, Digest(Build(S, q)), walk, |q|, head) == Ok(Build(S, q))
  {
    hide Group, Packed, Slots, Nibble;
    if q != [] && |Below(S, q)| == 1 {
      assert Build(S, q) == Leaf(Only(Below(S, q)));
    } else {
      if |q| == MAX_LEAF_DEPTH {
        DeepIsSingle(S, q);
      }
      BuildBranch(S, q);
      assert StrictSlots(Packed(Slots(S, q)));
    }
  }

  lemma SingleBuild(S: set<Entry>, p: seq<nat>, e: Entry)
    requires p != [] && Below(S, p) == {e}
    ensures Build(S, p) == Leaf(e)
  {
    SingleIs({e}, e);
  }

  // ---- splitting a leaf --------------------------------------------------------------------------

  lemma PairBelow(a: Entry, b: Entry, p: seq<nat>)
    requires Prefix(a.key.path, |p|) == p && Prefix(b.key.path, |p|) == p && a != b
    ensures Below({a, b}, p) == {a, b} && |Below({a, b}, p)| == 2
  {
  }

  lemma EmptySlots(p: seq<nat>)
    ensures Packed(Slots({}, p)) == []
  {
    PackedNothing(Slots({}, p));
  }

  lemma PairSlots(a: Entry, b: Entry, p: seq<nat>)
    requires |p| <= MAX_DEPTH && Prefix(a.key.path, |p|) == p && Prefix(b.key.path, |p|) == p
    requires Nibble(a.key.path, |p|) != Nibble(b.key.path, |p|)
    ensures Slots({a, b}, p) == Slots({}, p)[Nibble(a.key.path, |p|) := Some(Digest(Leaf(a)))]
                                            [Nibble(b.key.path, |p|) := Some(Digest(Leaf(b)))]
  {
    var sa, sb := Nibble(a.key.path, |p|), Nibble(b.key.path, |p|);
    var la, lb := Digest(Leaf(a)), Digest(Leaf(b));
    forall s: nat | s < FANOUT
      ensures Slot({a, b}, p, s) == if s == sa then Some(la) else if s == sb then Some(lb) else None
      ensures Slot({a}, p, s) == if s == sa then Some(la) else None
    {
      PairSlot(a, b, p, s);
    }
    SlotsUpdate({}, {a}, p, sa, la);
    SlotsUpdate({a}, {a, b}, p, sb, lb);
  }

  lemma SplitApart(store: set<Digest>, a: Entry, b: Entry, p: seq<nat>)
    requires |p| <= MAX_DEPTH && Prefix(a.key.path, |p|) == p && Prefix(b.key.path, |p|) == p
    requires Nibble(a.key.path, |p|) != Nibble(b.key.path, |p|)
    ensures var sa, sb := Nibble(a.key.path, |p|), Nibble(b.key.path, |p|);
            var d := Digest(Build({a, b}, p));
            && Build({a, b}, p) == Branch(|p|, p, Upsert(Upsert([], sa, Digest(Leaf(a))), sb, Digest(Leaf(b))))
            && Stored(store + {Digest(Leaf(a))} + {Digest(Leaf(b))} + {d}, d)
  {
    PairBuild(a, b, p);
    hide Build, Slots, Packed, Upsert, Prefix, Nibble, Stored, Below;
    var store' := store + {Digest(Leaf(a))} + {Digest(Leaf(b))} + {Digest(Build({a, b}, p))};
    PairStored(store', a, b, p);
    BranchStored(store', |p|, p, Slots({a, b}, p));
  }

  lemma PairBuild(a: Entry, b: Entry, p: seq<nat>)
    requires |p| <= MAX_DEPTH && Prefix(a.key.path, |p|) == p && Prefix(b.key.path, |p|) == p
    requires Nibble(a.key.path, |p|) != Nibble(b.key.path, |p|)
    ensures var sa, sb := Nibble(a.key.path, |p|), Nibble(b.key.path, |p|);
            && Build({a, b}, p) == Branch(|p|, p, Packed(Slots({a, b}, p)))
            && Build({a, b}, p) == Branch(|p|, p, Upsert(Upsert([], sa, Digest(Leaf(a))), sb, Digest(Leaf(b))))
  {
    var sa, sb := Nibble(a.key.path, |p|), Nibble(b.key.path, |p|);
    var la, lb := Digest(Leaf(a)), Digest(Leaf(b));
    PairBelow(a, b, p);
    BuildBranch({a, b}, p);
    EmptySlots(p);
    PairSlots(a, b, p);
    hide Build, Slots, Packed, Upsert, Prefix, Nibble, Below;
    var s0 := Slots({}, p);
    UpsertPacked(s0, sa, la);
    UpsertPacked(s0[sa := Some(la)], sb, lb);
  }

  lemma PairStored(store: set<Digest>, a: Entry, b: Entry, p: seq<nat>)
    requires |p| <= MAX_DEPTH && Prefix(a.key.path, |p|) == p && Prefix(b.key.path, |p|) == p
    requires Nibble(a.key.path, |p|) != Nibble(b.key.path, |p|)
    requires Digest(Leaf(a)) in store && Digest(Leaf(b)) in store
    ensures StoredSlots(store, Slots({a, b}, p))
  {
    PairSlots(a, b, p);
    EmptySlot(p);
    hide Slots, Packed, Prefix, Nibble, Below;
    LeavesStored(store, Slots({}, p), Nibble(a.key.path, |p|), Nibble(b.key.path, |p|), a, b);
  }

  lemma EmptySlot(p: seq<nat>)
    ensures forall s :: 0 <= s < |Slots({}, p)| ==> Slots({}, p)[s].None?
  {
  }

  lemma LeavesStored(store: set<Digest>, c: seq<Option<Digest>>, sa: nat, sb: nat, a: Entry, b: Entry)
    requires sa < |c| && sb < |c| && forall s :: 0 <= s < |c| ==> c[s].None?
    requires Digest(Leaf(a)) in store && Digest(Leaf(b)) in store
    ensures StoredSlots(store, c[sa := Some(Digest(Leaf(a)))][sb := Some(Digest(Leaf(b)))])
  {
  }

  lemma PairSlot(a: Entry, b: Entry, p: seq<nat>, s: nat)
    requires |p| <= MAX_DEPTH && Prefix(a.key.path, |p|) == p && Prefix(b.key.path, |p|) == p
    requires Nibble(a.key.path, |p|) != Nibble(b.key.path, |p|)
    ensures Slot({a, b}, p, s) == if s == Nibble(a.key.path, |p|) then Some(Digest(Leaf(a)))
                                  else if s == Nibble(b.key.path, |p|) then Some(Digest(Leaf(b))) else None
    ensures Slot({a}, p, s) == if s == Nibble(a.key.path, |p|) then Some(Digest(Leaf(a))) else None
  {
    BelowSnoc({a, b}, p, s);
    BelowSnoc({a}, p, s);
    PairBelow(a, b, p);
    assert Below({a}, p) == {a};
    if s == Nibble(a.key.path, |p|) {
      assert Below({a, b}, p + [s]) == {a};
      assert Below({a}, p + [s]) == {a};
      SingleBuild({a, b}, p + [s], a);
      SingleBuild({a}, p + [s], a);
    } else if s == Nibble(b.key.path, |p|) {
      assert Below({a, b}, p + [s]) == {b};
      SingleBuild({a, b}, p + [s], b);
    }
  }

  lemma SplitTogether(a: Entry, b: Entry, p: seq<nat>, d: Digest)
    requires |p| <= MAX_DEPTH && Prefix(a.key.path, |p|) == p && Prefix(b.key.path, |p|) == p && a != b
    requires Nibble(a.key.path, |p|) == Nibble(b.key.path, |p|)
    requires d == Digest(Build({a, b}, p + [Nibble(a.key.path, |p|)]))
    ensures Build({a, b}, p) == Branch(|p|, p, Upsert([], Nibble(a.key.path, |p|), d))
    ensures Slots({a, b}, p) == Slots({}, p)[Nibble(a.key.path, |p|) := Some(d)]
  {
    var sa := Nibble(a.key.path, |p|);
    PairBelow(a, b, p);
    forall s: nat | s < FANOUT ensures Slot({a, b}, p, s) == if s == sa then Some(d) else Slot({}, p, s) {
      BelowSnoc({a, b}, p, s);
      if s == sa {
        assert a in Below({a, b}, p + [s]);
      }
    }
    SlotsUpdate({}, {a, b}, p, sa, d);
    EmptySlots(p);
    UpsertPacked(Slots({}, p), sa, d);
    BuildBranch({a, b}, p);
  }

  /** Splitting a leaf builds the reference tree of the two entries, or finds
      that they share the whole path. */
  lemma {:induction false} SplitBuilds(store: set<Digest>, a: Entry, b: Entry, p: seq<nat>, head: Head)
    requires |p| <= MAX_DEPTH && Prefix(a.key.path, |p|) == p && Prefix(b.key.path, |p|) == p && a != b
    requires ValidRange(a, head) && ValidRange(b, head)
    ensures var w := Split(store, a, b, |p|, head);
            if a.key.path == b.key.path then w == Written(store, Err(Rejected))
            else w.result == Ok(Digest(Build({a, b}, p))) && Stored(w.store, Digest(Build({a, b}, p)))
    decreases MAX_DEPTH - |p|
  {
    hide Build, Stored, Prefix, Nibble, Upsert, Below, Slots;
    var sa, sb := Nibble(a.key.path, |p|), Nibble(b.key.path, |p|);
    if sa != sb {
      SplitApart(store, a, b, p);
      assert a.key.path != b.key.path;
      assert Prefix(a.key.path, |p|) == p;
    } else {
      PrefixSnoc(a.key.path, p, sa);
      PrefixSnoc(b.key.path, p, sb);
      if |p| == MAX_DEPTH {
        NibblesDeterminePath(a.key.path, b.key.path);
      } else {
        SplitBuilds(store, a, b, p + [sa], head);
        if a.key.path != b.key.path {
          SplitDeeper(a, b, p, Split(store, a, b, |p| + 1, head).store);
        }
      }
    }
  }

  /** One branch above the reference tree of two entries that share a slot. */
  lemma SplitDeeper(a: Entry, b: Entry, p: seq<nat>, store: set<Digest>)
    requires |p| <= MAX_DEPTH && Prefix(a.key.path, |p|) == p && Prefix(b.key.path, |p|) == p && a != b
    requires Nibble(a.key.path, |p|) == Nibble(b.key.path, |p|)
    requires Stored(store, Digest(Build({a, b}, p + [Nibble(a.key.path, |p|)])))
    ensures var d := Digest(Build({a, b}, p + [Nibble(a.key.path, |p|)]));
            var top := Digest(Branch(|p|, p, Upsert([], Nibble(a.key.path, |p|), d)));
            top == Digest(Build({a, b}, p)) && Stored(store + {top}, top)
  {
    var d := Digest(Build({a, b}, p + [Nibble(a.key.path, |p|)]));
    SplitTogether(a, b, p, d);
    PairBelow(a, b, p);
    BuildBranch({a, b}, p);
    EmptySlot(p);
    hide Build, Stored, Prefix, Nibble, Upsert, Below, Slots, Packed;
    var store' := store + {Digest(Build({a, b}, p))};
    StoredStays(store, store', d);
    assert StoredSlots(store', Slots({a, b}, p));
    BranchStored(store', |p|, p, Slots({a, b}, p));
  }
}
