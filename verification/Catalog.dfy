/** The chunk catalog: an append-only B+tree of fan-out 32. Nodes are addressed
    by digest, here an injective constructor; the store is the set of digests it
    holds. Appending copies the right spine. */
module Catalog {
  import opened Bits
  import opened Words
  import opened Wrappers

  const MAX_ITEMS: nat := 32
  const MAX_HEIGHT: nat := 8

  datatype Frame = Frame(position: nat, payload: seq<Byte>)

  /** A chunk is addressed by its frames. */
  datatype ChunkRef = ChunkRef(chunk: seq<Frame>, first: U64, last: U64, eventCount: nat, rawBytes: nat)

  datatype Child = Child(first: U64, last: U64, count: nat, digest: Digest)

  datatype Node = Leaf(refs: seq<ChunkRef>) | Branch(height: nat, children: seq<Child>)

  datatype Digest = Digest(node: Node)

  datatype Root = Root(digest: Digest, height: nat, first: U64, last: U64, count: nat)

  datatype Error = Integrity | Rejected

  datatype Written<T> = Written(store: set<Digest>, result: Result<T, Error>)

  datatype SpineUpdate = Grown(digest: Digest, height: nat) | SplitUp(left: Child, right: Child, height: nat)

  // ---- validation -----------------------------------------------------------------

  predicate ValidRef(r: ChunkRef) {
    1 <= r.first <= r.last && r.eventCount == r.last - r.first + 1
  }

  predicate ValidLeaf(refs: seq<ChunkRef>) {
    && 1 <= |refs| <= MAX_ITEMS
    && (forall k :: 0 <= k < |refs| ==> ValidRef(refs[k]))
    && (forall k :: 0 <= k < |refs| - 1 ==> refs[k + 1].first == refs[k].last + 1)
  }

  /** validate_leaf_refs: one pass that remembers the previous end; the end of
      the 64-bit range has no successor. */
  method ValidateLeafRefs(refs: seq<ChunkRef>) returns (ok: bool)
    ensures ok == ValidLeaf(refs)
  {
    if refs == [] || |refs| > MAX_ITEMS {
      return false;
    }
    var prevLast: Option<U64> := None;
    for i := 0 to |refs|
      invariant prevLast == if i == 0 then None else Some(refs[i - 1].last)
      invariant forall k :: 0 <= k < i ==> ValidRef(refs[k])
      invariant forall k :: 0 <= k < i - 1 ==> refs[k + 1].first == refs[k].last + 1
    {
      var r := refs[i];
      if !ValidRef(r) {
        return false;
      }
      if prevLast.Some? {
        var next: Option<U64> := if prevLast.value == U64_MAX then None else Some(prevLast.value + 1);
        if Some(r.first) != next {
          assert refs[i - 1 + 1].first != refs[i - 1].last + 1;
          return false;
        }
      }
      prevLast := Some(r.last);
    }
    return true;
  }

  predicate ValidChild(c: Child) {
    1 <= c.first <= c.last && 1 <= c.count <= c.last - c.first + 1
  }

  predicate ValidBranch(height: nat, children: seq<Child>) {
    && 1 <= |children| <= MAX_ITEMS && 1 <= height <= MAX_HEIGHT
    && (forall k :: 0 <= k < |children| ==> ValidChild(children[k]))
    && (forall k :: 0 <= k < |children| - 1 ==> children[k + 1].first == children[k].last + 1)
  }

  /** validate_children */
  method ValidateChildren(children: seq<Child>, height: nat) returns (ok: bool)
    ensures ok == ValidBranch(height, children)
  {
    if children == [] || |children| > MAX_ITEMS || height == 0 || height > MAX_HEIGHT {
      return false;
    }
    var prevLast: Option<U64> := None;
    for i := 0 to |children|
      invariant prevLast == if i == 0 then None else Some(children[i - 1].last)
      invariant forall k :: 0 <= k < i ==> ValidChild(children[k])
      invariant forall k :: 0 <= k < i - 1 ==> children[k + 1].first == children[k].last + 1
    {
      var c := children[i];
      if c.first == 0 || c.last < c.first || c.count == 0 || c.count > c.last - c.first + 1 {
        return false;
      }
      if prevLast.Some? {
        var next: Option<U64> := if prevLast.value == U64_MAX then None else Some(prevLast.value + 1);
        if Some(c.first) != next {
          assert children[i - 1 + 1].first != children[i - 1].last + 1;
          return false;
        }
      }
      prevLast := Some(c.last);
    }
    return true;
  }

  predicate Valid(node: Node) {
    match node
    case Leaf(refs) => ValidLeaf(refs)
    case Branch(height, children) => ValidBranch(height, children)
  }

  function PutNode(store: set<Digest>, node: Node): Written<Digest> {
    if !Valid(node) then Written(store, Err(Integrity))
    else Written(store + {Digest(node)}, Ok(Digest(node)))
  }

  function LoadNode(store: set<Digest>, digest: Digest): Result<Node, Error> {
    if digest !in store || !Valid(digest.node) then Err(Integrity) else Ok(digest.node)
  }

  // ---- spans -----------------------------------------------------------------------

  function Counts(children: seq<Child>): nat {
    if children == [] then 0 else children[0].count + Counts(children[1..])
  }

  function ChildFromLeaf(digest: Digest, refs: seq<ChunkRef>): Child
    requires refs != []
  {
    Child(refs[0].first, refs[|refs| - 1].last, |refs|, digest)
  }

  function ChildFromBranch(digest: Digest, children: seq<Child>): Child
    requires children != []
  {
    Child(children[0].first, children[|children| - 1].last, Counts(children), digest)
  }

  function ChildFromNode(digest: Digest, node: Node): Child
    requires Valid(node)
  {
    match node
    case Leaf(refs) => ChildFromLeaf(digest, refs)
    case Branch(_, children) => ChildFromBranch(digest, children)
  }

  function RootFromNode(digest: Digest, node: Node): Root
    requires Valid(node)
  {
    var span := ChildFromNode(digest, node);
    Root(digest, if node.Leaf? then 0 else node.height, span.first, span.last, span.count)
  }

  // ---- append ------------------------------------------------------------------------

  function Then<T, U>(w: Written<T>, next: T -> U): Written<U> {
    match w.result
    case Err(e) => Written(w.store, Err(e))
    case Ok(v) => Written(w.store, Ok(next(v)))
  }

  function AppendLeaf(store: set<Digest>, digest: Digest, refs: seq<ChunkRef>,
                      chunk: ChunkRef): (w: Written<SpineUpdate>)
    requires refs != []
    ensures store <= w.store
  {
    if |refs| < MAX_ITEMS then
      Then(PutNode(store, Leaf(refs + [chunk])), d => Grown(d, 0))
    else
      Then(PutNode(store, Leaf([chunk])), d => SplitUp(ChildFromLeaf(digest, refs), ChildFromLeaf(d, [chunk]), 0))
  }

  /** The last child was rewritten in place. */
  function AppendGrown(store: set<Digest>, h: nat, children: seq<Child>, child: Digest,
                       childHeight: nat): (w: Written<SpineUpdate>)
    requires children != []
    ensures store <= w.store
  {
    if childHeight + 1 != h then Written(store, Err(Integrity))
    else
      match LoadNode(store, child)
      case Err(e) => Written(store, Err(e))
      case Ok(node) =>
        if node.Branch? && node.height + 1 != h then Written(store, Err(Integrity))
        else
          var kids := children[..|children| - 1] + [ChildFromNode(child, node)];
          Then(PutNode(store, Branch(h, kids)), d => Grown(d, h))
  }

  /** The last child became two; a full branch splits in turn, and the highest
      level may not. */
  function AppendSplit(store: set<Digest>, h: nat, children: seq<Child>, left: Child, right: Child, childHeight: nat)
    : (w: Written<SpineUpdate>)
    requires 1 <= |children| <= MAX_ITEMS
    ensures store <= w.store
  {
    var kids := children[..|children| - 1] + [left, right];
    if childHeight + 1 != h then Written(store, Err(Integrity))
    else if |kids| <= MAX_ITEMS then Then(PutNode(store, Branch(h, kids)), d => Grown(d, h))
    else if h >= MAX_HEIGHT then Written(store, Err(Rejected))
    else
      var kept, moved := kids[..MAX_ITEMS], kids[MAX_ITEMS..];
      var l := PutNode(store, Branch(h, kept));
      match l.result
      case Err(e) => Written(l.store, Err(e))
      case Ok(dl) =>
        Then(PutNode(l.store, Branch(h, moved)),
             dr => SplitUp(ChildFromBranch(dl, kept), ChildFromBranch(dr, moved), h))
  }

  function AppendAt(store: set<Digest>, digest: Digest, height: nat, chunk: ChunkRef): (w: Written<SpineUpdate>)
    ensures store <= w.store
    decreases height
  {
    match LoadNode(store, digest)
    case Err(e) => Written(store, Err(e))
    case Ok(Leaf(refs)) =>
      if height != 0 then Written(store, Err(Integrity)) else AppendLeaf(store, digest, refs, chunk)
    case Ok(Branch(h, children)) =>
      if h != height then Written(store, Err(Integrity))
      else
        var w := AppendAt(store, children[|children| - 1].digest, h - 1, chunk);
        match w.result
        case Err(e) => Written(w.store, Err(e))
        case Ok(Grown(d, gh)) => AppendGrown(w.store, h, children, d, gh)
        case Ok(SplitUp(left, right, sh)) => AppendSplit(w.store, h, children, left, right, sh)
  }

  function Append(store: set<Digest>, state: Option<Root>, chunk: ChunkRef): (w: Written<Root>)
    ensures store <= w.store
  {
    if !ValidRef(chunk) then Written(store, Err(Integrity))
    else
      match state
      case None =>
        if chunk.first != 1 then Written(store, Err(Integrity))
        else Then(PutNode(store, Leaf([chunk])), d => Root(d, 0, chunk.first, chunk.last, 1))
      case Some(root) =>
        if root.last == U64_MAX || chunk.first != root.last + 1 then Written(store, Err(Integrity))
        else
          var w := AppendAt(store, root.digest, root.height, chunk);
          match w.result
          case Err(e) => Written(w.store, Err(e))
          case Ok(Grown(d, _)) =>
            (match LoadNode(w.store, d)
             case Err(e) => Written(w.store, Err(e))
             case Ok(node) => Written(w.store, Ok(RootFromNode(d, node))))
          case Ok(SplitUp(left, right, height)) =>
            if height + 1 > MAX_HEIGHT then Written(w.store, Err(Rejected))
            else
              Then(PutNode(w.store, Branch(height + 1, [left, right])),
                   d => Root(d, height + 1, left.first, right.last, left.count + right.count))
  }

  // ---- seek -----------------------------------------------------------------------------

  /** The first child whose range covers a sequence. */
  function FindCover(children: seq<Child>, s: nat): Option<Child> {
    if children == [] then None
    else if children[0].first <= s <= children[0].last then Some(children[0])
    else FindCover(children[1..], s)
  }

  function SeekFrom(store: set<Digest>, digest: Digest, depth: nat, s: nat): Result<Option<seq<ChunkRef>>, Error>
    decreases MAX_HEIGHT + 1 - depth
  {
    if depth > MAX_HEIGHT then Err(Integrity)
    else
      match LoadNode(store, digest)
      case Err(e) => Err(e)
      case Ok(Leaf(refs)) =>
        if refs[0].first <= s <= refs[|refs| - 1].last then Ok(Some(refs)) else Err(Integrity)
      case Ok(Branch(_, children)) =>
        match FindCover(children, s)
        case None => Err(Integrity)
        case Some(child) => SeekFrom(store, child.digest, depth + 1, s)
  }

  function SeekSpec(store: set<Digest>, state: Option<Root>, s: nat): Result<Option<seq<ChunkRef>>, Error> {
    if state.None? || s < state.value.first || s > state.value.last then Ok(None)
    else SeekFrom(store, state.value.digest, 0, s)
  }

  /** seek_leaf: the loop over digests and depths. */
  method SeekLeaf(store: set<Digest>, state: Option<Root>, s: nat) returns (r: Result<Option<seq<ChunkRef>>, Error>)
    ensures r == SeekSpec(store, state, s)
  {
    if state.None? || s < state.value.first || s > state.value.last {
      return Ok(None);
    }
    var digest, depth := state.value.digest, 0;
    while true
      invariant SeekFrom(store, state.value.digest, 0, s) == SeekFrom(store, digest, depth, s)
      decreases MAX_HEIGHT + 1 - depth
    {
      if depth > MAX_HEIGHT {
        return Err(Integrity);
      }
      var loaded := LoadNode(store, digest);
      match loaded {
        case Err(e) =>
          return Err(e);
        case Ok(Leaf(refs)) =>
          return if refs[0].first <= s <= refs[|refs| - 1].last then Ok(Some(refs)) else Err(Integrity);
        case Ok(Branch(_, children)) =>
          var child := FindCover(children, s);
          if child.None? {
            return Err(Integrity);
          }
          digest, depth := child.value.digest, depth + 1;
      }
    }
  }
}
