/** The stable-key index: a persistent trie of five-bit fan-out over 256-bit
    paths. A node is addressed by its digest, here an injective constructor, and
    the store is the set of digests it holds. A key carries the path its keyed
    hash gives it; two keys may share a path. A payload's keyed hash is modelled by
    the payload. */
module Hamt {
  import opened Wrappers
  import opened Bits
  import opened Words

  type Path = p: seq<Byte> | |p| == 32 witness seq(32, _ => 0)

  datatype Key = Key(name: string, path: Path)

  datatype Entry = Entry(key: Key, payloadHash: seq<Byte>, first: U64, last: U64, generation: nat)

  datatype Node = Branch(depth: nat, prefix: seq<nat>, children: seq<Child>) | Leaf(entry: Entry)

  datatype Child = Child(slot: nat, digest: Digest)

  datatype Digest = Digest(node: Node)

  datatype Root = Root(digest: Digest, entries: nat)

  datatype Head = Head(generation: nat, headSeq: nat)

  datatype Error = Integrity | Rejected | RecoveryFailed

  /** What a write leaves: the grown store, and the new digest or an error. */
  datatype Written<T> = Written(store: set<Digest>, result: Result<T, Error>)

  const FANOUT: nat := 32
  const MAX_DEPTH: nat := 51
  const MAX_LEAF_DEPTH: nat := 52

  function Nibble(path: Path, depth: nat): (slot: nat)
    ensures slot < FANOUT
  {
    Group(path, depth)
  }

  function Prefix(path: Path, depth: nat): (p: seq<nat>)
    ensures |p| == depth
  {
    seq(depth, d requires 0 <= d < depth => Nibble(path, d))
  }

  // ---- checks on a node as it is read --------------------------------------------

  predicate ValidRange(e: Entry, head: Head) {
    1 <= e.first <= e.last <= head.headSeq && 1 <= e.generation <= head.generation
  }

  predicate StrictSlots(children: seq<Child>) {
    && |children| <= FANOUT
    && (forall k :: 0 <= k < |children| ==> children[k].slot < FANOUT)
    && (forall k :: 0 <= k < |children| - 1 ==> children[k].slot < children[k + 1].slot)
  }

  /** validate_slots: one pass that remembers the previous slot. */
  method ValidateSlots(children: seq<Child>) returns (ok: bool)
    ensures ok == StrictSlots(children)
  {
    if |children| > FANOUT {
      return false;
    }
    var prev: Option<nat> := None;
    for i := 0 to |children|
      invariant prev == if i == 0 then None else Some(children[i - 1].slot)
      invariant forall k :: 0 <= k < i ==> children[k].slot < FANOUT
      invariant forall k :: 0 <= k < i - 1 ==> children[k].slot < children[k + 1].slot
    {
      if children[i].slot >= FANOUT {
        return false;
      }
      if prev.Some? && children[i].slot <= prev.value {
        assert children[i - 1].slot >= children[i - 1 + 1].slot;
        return false;
      }
      prev := Some(children[i].slot);
    }
    return true;
  }

  function LoadNode(store: set<Digest>, digest: Digest, walk: Path, depth: nat, head: Head): Result<Node, Error> {
    if digest !in store then Err(Integrity)
    else
      match digest.node
      case Branch(d, prefix, children) =>
        if d != depth || depth > MAX_DEPTH || prefix != Prefix(walk, depth) || !StrictSlots(children)
        then Err(Integrity)
        else Ok(digest.node)
      case Leaf(e) =>
        if Prefix(e.key.path, depth) != Prefix(walk, depth) || !ValidRange(e, head) then Err(Integrity)
        else Ok(digest.node)
  }

  function CheckRootShape(root: Root, node: Node): bool {
    if root.entries == 0 then node == Branch(0, [], [])
    else node.Leaf? || node.children != []
  }

  function CheckRoot(store: set<Digest>, root: Root, walk: Path, head: Head): Result<Node, Error> {
    if root.entries > head.headSeq then Err(Integrity)
    else
      var loaded := LoadNode(store, root.digest, walk, 0, head);
      if loaded.Ok? && !CheckRootShape(root, loaded.value) then Err(Integrity) else loaded
  }

  // ---- children ---------------------------------------------------------------------

  function FindChild(children: seq<Child>, slot: nat): Option<Digest> {
    if children == [] then None
    else if children[0].slot == slot then Some(children[0].digest)
    else FindChild(children[1..], slot)
  }

  /** The children in slot order with this slot's digest set. */
  function Upsert(children: seq<Child>, slot: nat, digest: Digest): seq<Child> {
    if children == [] then [Child(slot, digest)]
    else
      var rest, last := children[..|children| - 1], children[|children| - 1];
      if last.slot < slot then children + [Child(slot, digest)]
      else if last.slot == slot then rest + [Child(slot, digest)]
      else Upsert(rest, slot, digest) + [last]
  }

  /** upsert_child: overwrite the slot in place, or push and sort by slot. */
  method UpsertChild(children: seq<Child>, slot: nat, digest: Digest) returns (r: seq<Child>)
    requires forall j, k :: 0 <= j < k < |children| ==> children[j].slot < children[k].slot
    ensures r == Upsert(children, slot, digest)
  {
    hide Upsert, Placed;
    var i := 0;
    while i < |children| && children[i].slot != slot
      invariant 0 <= i <= |children|
      invariant forall k :: 0 <= k < i ==> children[k].slot != slot
    {
      i := i + 1;
    }
    if i < |children| {
      r := children[i := Child(slot, digest)];
      UpsertOverwrites(children, slot, digest, i);
    } else {
      r := children + [Child(slot, digest)];
      PlacedLast(children, Child(slot, digest));
      var at := |children|;
      while at > 0 && r[at - 1].slot > slot
        invariant 0 <= at <= |children|
        invariant r == Placed(children, Child(slot, digest), at)
        invariant at < |children| ==> children[at].slot > slot
      {
        Bubble(children, Child(slot, digest), at);
        r := r[at - 1 := r[at]][at := r[at - 1]];
        at := at - 1;
      }
      UpsertInserts(children, slot, digest, at);
    }
  }

  /** The children with one more put before position `at`. */
  function Placed(children: seq<Child>, c: Child, at: nat): (p: seq<Child>)
    requires at <= |children|
    ensures |p| == |children| + 1 && p[at] == c && (at > 0 ==> p[at - 1] == children[at - 1])
  {
    children[..at] + [c] + children[at..]
  }

  lemma PlacedLast(children: seq<Child>, c: Child)
    ensures Placed(children, c, |children|) == children + [c]
  {
  }

  lemma Bubble(children: seq<Child>, c: Child, at: nat)
    requires 0 < at <= |children|
    ensures Placed(children, c, at)[at - 1 := c][at := children[at - 1]] == Placed(children, c, at - 1)
  {
  }

  lemma InsertBeforeLast(children: seq<Child>, c: Child, at: nat)
    requires at < |children|
    ensures var rest, last := children[..|children| - 1], children[|children| - 1];
            Placed(children, c, at) == Placed(rest, c, at) + [last]
  {
  }

  lemma {:induction false} UpsertOverwrites(children: seq<Child>, slot: nat, digest: Digest, i: nat)
    requires forall j, k :: 0 <= j < k < |children| ==> children[j].slot < children[k].slot
    requires i < |children| && children[i].slot == slot
    ensures Upsert(children, slot, digest) == children[i := Child(slot, digest)]
  {
    var rest, last := children[..|children| - 1], children[|children| - 1];
    if i < |children| - 1 {
      assert children[i].slot < last.slot;
      UpsertOverwrites(rest, slot, digest, i);
    }
  }

  lemma {:induction false} UpsertInserts(children: seq<Child>, slot: nat, digest: Digest, at: nat)
    requires forall j, k :: 0 <= j < k < |children| ==> children[j].slot < children[k].slot
    requires at <= |children|
    requires at > 0 ==> children[at - 1].slot < slot
    requires at < |children| ==> children[at].slot > slot
    ensures Upsert(children, slot, digest) == Placed(children, Child(slot, digest), at)
  {
    if at < |children| {
      var rest, last := children[..|children| - 1], children[|children| - 1];
      assert last.slot > slot;
      UpsertInserts(rest, slot, digest, at);
      InsertBeforeLast(children, Child(slot, digest), at);
    } else {
      assert children[..at] == children;
    }
  }

  // ---- insertion ---------------------------------------------------------------------

  function PutBranch(store: set<Digest>, depth: nat, path: Path, children: seq<Child>): Written<Digest> {
    var d := Digest(Branch(depth, Prefix(path, depth), children));
    Written(store + {d}, Ok(d))
  }

  function EmptyRoot(store: set<Digest>): Written<Root> {
    var d := Digest(Branch(0, [], []));
    Written(store + {d}, Ok(Root(d, 0)))
  }

  function Split(store: set<Digest>, a: Entry, b: Entry, depth: nat, head: Head): (w: Written<Digest>)
    ensures store <= w.store
    ensures w.result.Err? ==> w.store == store
    decreases MAX_DEPTH + 1 - depth
  {
    if !ValidRange(a, head) || !ValidRange(b, head) then Written(store, Err(Integrity))
    else if depth > MAX_DEPTH then Written(store, Err(Rejected))
    else
      var sa, sb := Nibble(a.key.path, depth), Nibble(b.key.path, depth);
      if sa != sb then
        var la, lb := Digest(Leaf(a)), Digest(Leaf(b));
        PutBranch(store + {la} + {lb}, depth, a.key.path, Upsert(Upsert([], sa, la), sb, lb))
      else if depth == MAX_DEPTH then Written(store, Err(Rejected))
      else
        var child := Split(store, a, b, depth + 1, head);
        match child.result
        case Err(_) => child
        case Ok(d) => PutBranch(child.store, depth, a.key.path, Upsert([], sa, d))
  }

  function InsertAt(store: set<Digest>, node: Node, entry: Entry, depth: nat, head: Head): (w: Written<Digest>)
    ensures store <= w.store
    ensures w.result.Err? ==> w.store == store
    decreases MAX_LEAF_DEPTH + 1 - depth
  {
    if depth > MAX_LEAF_DEPTH then Written(store, Err(Rejected))
    else
      match node
      case Leaf(held) =>
        if held.key == entry.key then Written(store, Err(RecoveryFailed))
        else if depth > MAX_DEPTH then Written(store, Err(Rejected))
        else Split(store, held, entry, depth, head)
      case Branch(_, _, children) =>
        if depth > MAX_DEPTH then Written(store, Err(Integrity))
        else
          var slot := Nibble(entry.key.path, depth);
          match FindChild(children, slot)
          case None =>
            var leaf := Digest(Leaf(entry));
            PutBranch(store + {leaf}, depth, entry.key.path, Upsert(children, slot, leaf))
          case Some(next) =>
            match LoadNode(store, next, entry.key.path, depth + 1, head)
            case Err(e) => Written(store, Err(e))
            case Ok(child) =>
              var w := InsertAt(store, child, entry, depth + 1, head);
              match w.result
              case Err(_) => w
              case Ok(d) => PutBranch(w.store, depth, entry.key.path, Upsert(children, slot, d))
  }

  function Insert(store: set<Digest>, root: Root, entry: Entry, head: Head): (w: Written<Root>)
    ensures store <= w.store
    ensures root.entries > head.headSeq ==> w == Written(store, Err(Integrity))
    ensures !(1 <= entry.first <= entry.last <= head.headSeq) ==> w == Written(store, Err(Integrity))
    ensures !(1 <= entry.generation <= head.generation) ==> w == Written(store, Err(Integrity))
  {
    if root.entries > head.headSeq || !ValidRange(entry, head) then Written(store, Err(Integrity))
    else
      match CheckRoot(store, root, entry.key.path, head)
      case Err(e) => Written(store, Err(e))
      case Ok(node) =>
        var w := InsertAt(store, node, entry, 0, head);
        match w.result
        case Err(e) => Written(w.store, Err(e))
        case Ok(d) =>
          if root.entries == U64_MAX then Written(w.store, Err(Rejected))
          else Written(w.store, Ok(Root(d, root.entries + 1)))
  }

  // ---- lookup ---------------------------------------------------------------------------

  /** One walk from a digest at a depth. */
  function Walk(store: set<Digest>, digest: Digest, key: Key, depth: nat, head: Head): Result<Option<Entry>, Error>
    decreases MAX_LEAF_DEPTH + 1 - depth
  {
    if depth > MAX_LEAF_DEPTH then Err(Integrity)
    else
      match LoadNode(store, digest, key.path, depth, head)
      case Err(e) => Err(e)
      case Ok(Leaf(e)) => Ok(if e.key == key then Some(e) else None)
      case Ok(Branch(_, _, children)) =>
        if depth > MAX_DEPTH then Err(Integrity)
        else
          match FindChild(children, Nibble(key.path, depth))
          case None => Ok(None)
          case Some(next) => Walk(store, next, key, depth + 1, head)
  }

  function LookupSpec(store: set<Digest>, root: Root, key: Key, head: Head): Result<Option<Entry>, Error> {
    match CheckRoot(store, root, key.path, head)
    case Err(e) => Err(e)
    case Ok(_) => if root.entries == 0 then Ok(None) else Walk(store, root.digest, key, 0, head)
  }

  /** lookup: the loop over digests and depths. */
  method Lookup(store: set<Digest>, root: Root, key: Key, head: Head) returns (r: Result<Option<Entry>, Error>)
    ensures r == LookupSpec(store, root, key, head)
  {
    if root.entries > head.headSeq {
      return Err(Integrity);
    }
    var digest, depth := root.digest, 0;
    while true
      invariant depth > 0 ==> root.entries > 0 && CheckRoot(store, root, key.path, head).Ok?
      invariant depth > 0 ==> Walk(store, root.digest, key, 0, head) == Walk(store, digest, key, depth, head)
      invariant depth == 0 ==> digest == root.digest
      decreases MAX_LEAF_DEPTH + 1 - depth
    {
      if depth > MAX_LEAF_DEPTH {
        return Err(Integrity);
      }
      var loaded := LoadNode(store, digest, key.path, depth, head);
      if loaded.Err? {
        return Err(loaded.error);
      }
      if depth == 0 {
        if !CheckRootShape(root, loaded.value) {
          return Err(Integrity);
        }
        if root.entries == 0 {
          return Ok(None);
        }
      }
      match loaded.value {
        case Leaf(e) =>
          return Ok(if e.key == key then Some(e) else None);
        case Branch(_, _, children) =>
          if depth > MAX_DEPTH {
            return Err(Integrity);
          }
          var next := FindChild(children, Nibble(key.path, depth));
          if next.None? {
            return Ok(None);
          }
          digest, depth := next.value, depth + 1;
      }
    }
  }
}
