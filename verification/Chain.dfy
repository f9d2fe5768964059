/** The immutable commit chain of one ref: dense parents, Fenwick skip pointers
    and the seek that follows them.

    A digest is modelled as a free constructor over the object it names, so it is
    injective by construction; whether an object can be read is a separate
    question, answered by the set of stored digests. */
module Chain {
  import opened Wrappers
  import opened Heads

  type Identity = IdentityOf<string>

  datatype Outcome = Range(first: nat, last: nat) | Mutation(generation: nat, epoch: nat) | Count(n: nat)

  datatype Admission = Admission(identity: Identity, request: string, first: nat, last: nat)

  type RefValue = RefState<Digest>

  datatype Header = Header(
    resource: string,
    generation: nat,
    epoch: nat,
    identity: Identity,
    request: string,
    parent: Option<Digest>,
    skip: Option<Digest>)

  datatype Commit = Commit(
    header: Header,
    result: Option<Outcome>,
    admitted: seq<Admission>,
    refState: RefValue,
    targetFollowsCommit: bool)

  datatype Digest = CommitDigest(commit: Commit) | BlobDigest(blob: nat)

  datatype SeekError = Missing | Foreign | TooManyHops | BelowTarget | BadSkip | NoParent | BrokenAncestry

  const MAX_SEEK_HOPS: nat := 10_000
  const U64_LIMIT: nat := 0x1_0000_0000_0000_0000

  // ---- skip arithmetic ----------------------------------------------------

  /** Largest power of two dividing `generation`; 0 for generation 0. */
  function SkipDistance(generation: nat): (d: nat)
    ensures generation > 0 ==> 1 <= d <= generation
  {
    if generation == 0 then 0
    else if generation % 2 == 1 then 1
    else 2 * SkipDistance(generation / 2)
  }

  function SkipTarget(generation: nat): (t: nat)
    ensures generation > 0 ==> t < generation
  {
    generation - SkipDistance(generation)
  }

  function Pow2(n: nat): (p: nat)
    ensures p >= 1
  {
    if n == 0 then 1 else 2 * Pow2(n - 1)
  }

  /** Every positive number is an odd multiple of one power of two, and that
      power is its skip distance. */
  lemma {:induction false} SkipDistanceIsLowestBit(q: nat, n: nat)
    ensures SkipDistance((2 * q + 1) * Pow2(n)) == Pow2(n)
  {
    if n > 0 {
      var half := (2 * q + 1) * Pow2(n - 1);
      SkipDistanceIsLowestBit(q, n - 1);
      DoubleProduct(2 * q + 1, Pow2(n - 1));
      assert (2 * q + 1) * Pow2(n) == 2 * half;
      hide Pow2;
      assert half > 0;
    } else {
      assert SkipDistance(2 * q + 1) == 1;
    }
  }

  lemma DoubleProduct(a: nat, b: nat)
    ensures a * (2 * b) == 2 * (a * b)
    ensures a > 0 && b > 0 ==> a * b > 0
  {
  }

  // ---- how far a seek walks -----------------------------------------------

  /** Hops a seek takes on a well-formed chain: the skip when it does not
      overshoot, the parent otherwise. */
  function Hops(from: nat, target: nat): nat
    requires target <= from
    decreases from
  {
    if from == target then 0 else 1 + Hops(NextHop(from, target), target)
  }

  function NextHop(from: nat, target: nat): (next: nat)
    requires target < from
    ensures target <= next < from
  {
    if SkipTarget(from) >= target then SkipTarget(from) else from - 1
  }

  /** The n lowest bits of w are zero. */
  predicate LowZero(w: nat, n: nat) {
    n == 0 || (w % 2 == 0 && LowZero(w / 2, n - 1))
  }

  /** Splitting a block of 2^n at its middle. */
  lemma {:induction false} Halves(w: nat, n: nat)
    requires n > 0 && LowZero(w, n)
    ensures LowZero(w, n - 1) && LowZero(w + Pow2(n - 1), n - 1)
    ensures SkipTarget(w + Pow2(n - 1)) == w
    ensures Pow2(n) == 2 * Pow2(n - 1)
  {
    if n > 1 {
      Halves(w / 2, n - 1);
      assert (w + Pow2(n - 1)) / 2 == w / 2 + Pow2(n - 2);
    }
  }

  /** Clearing low bits: from w+x, with x below 2^n and the n low bits of w zero,
      at most n skips reach w when the target is not above w. */
  lemma {:induction false} HopsToBase(w: nat, x: nat, target: nat, n: nat)
    requires LowZero(w, n) && x < Pow2(n) && target <= w
    ensures Hops(w + x, target) <= n + Hops(w, target)
    decreases n
  {
    if n > 0 {
      Halves(w, n);
      var half := Pow2(n - 1);
      if x < half {
        HopsToBase(w, x, target, n - 1);
      } else {
        HopsToBase(w + half, x - half, target, n - 1);
      }
    }
  }

  /** n(n+1)/2, the hop bound of a block of 2^n generations. */
  function Triangle(n: nat): nat {
    if n == 0 then 0 else n + Triangle(n - 1)
  }

  /** The logarithmic bound: inside a block of 2^n generations a seek takes at
      most n(n+1)/2 hops. */
  lemma {:induction false} HopsBound(w: nat, x: nat, y: nat, n: nat)
    requires LowZero(w, n) && y <= x < Pow2(n)
    ensures Hops(w + x, w + y) <= Triangle(n)
    decreases n
  {
    if n > 0 {
      Halves(w, n);
      var half := Pow2(n - 1);
      if x < half {
        HopsBound(w, x, y, n - 1);
      } else if y >= half {
        HopsBound(w + half, x - half, y - half, n - 1);
        assert w + half + (x - half) == w + x && w + half + (y - half) == w + y;
      } else {
        HopsAcross(w, x, y, n);
      }
    }
  }

  /** From the upper half of a block to its lower half: at most n hops to its
      middle, and then, unless the target is its start, within the lower half. */
  lemma {:induction false} HopsAcross(w: nat, x: nat, y: nat, n: nat)
    requires n > 0 && LowZero(w, n) && y < Pow2(n - 1) <= x < Pow2(n)
    ensures Hops(w + x, w + y) <= Triangle(n)
    decreases n, 1
  {
    Halves(w, n);
    var half := Pow2(n - 1);
    hide LowZero, Pow2, SkipTarget, Hops, NextHop;
    HopsToBase(w + half, x - half, w + y, n - 1);
    assert w + half + (x - half) == w + x;
    HopsFromMiddle(w, y, n);
  }

  lemma {:induction false} HopsFromMiddle(w: nat, y: nat, n: nat)
    requires n > 0 && LowZero(w, n) && y < Pow2(n - 1)
    ensures Hops(w + Pow2(n - 1), w + y) <= 1 + Triangle(n - 1)
    decreases n, 0
  {
    Halves(w, n);
    var half := Pow2(n - 1);
    FirstHop(w + half, w + y);
    hide LowZero, Pow2, SkipTarget, Hops, Triangle;
    if y > 0 {
      HopsBound(w, half - 1, y, n - 1);
      assert w + (half - 1) == w + half - 1;
    }
  }

  lemma FirstHop(from: nat, target: nat)
    requires target < from && SkipTarget(from) <= target
    ensures SkipTarget(from) < target ==> Hops(from, target) == 1 + Hops(from - 1, target)
    ensures SkipTarget(from) == target ==> Hops(from, target) == 1
  {
  }

  /** For every 64-bit generation the hop cap never fires. */
  lemma {:induction false} HopsUnderCap(from: nat, target: nat)
    requires target <= from < U64_LIMIT
    ensures Hops(from, target) <= 2080 < MAX_SEEK_HOPS
  {
    Pow2Is64();
    AllLowZero(64);
    HopsBound(0, from, target, 64);
    TriangleClosed(64);
  }

  lemma {:induction false} AllLowZero(n: nat)
    ensures LowZero(0, n)
  {
    if n > 0 {
      AllLowZero(n - 1);
    }
  }

  lemma {:induction false} TriangleClosed(n: nat)
    ensures 2 * Triangle(n) == n * (n + 1)
  {
    if n > 0 {
      TriangleClosed(n - 1);
      assert n * (n + 1) == (n - 1) * n + 2 * n;
    }
  }

  lemma Pow2Is64()
    ensures Pow2(64) == U64_LIMIT
  {
    Pow2Of4();
    hide Pow2;
    Pow2Adds(4, 4);
    Pow2Adds(8, 8);
    Pow2Adds(16, 16);
    Pow2Adds(32, 32);
  }

  lemma Pow2Of4()
    ensures Pow2(4) == 0x10
  {
    assert Pow2(2) == 4;
  }

  lemma {:induction false} Pow2Adds(a: nat, b: nat)
    ensures Pow2(a + b) == Pow2(a) * Pow2(b)
  {
    if a > 0 {
      Pow2Adds(a - 1, b);
      assert Pow2(a + b) == 2 * Pow2(a - 1 + b);
    }
  }

  // ---- history and its well-formedness --------------------------------------

  /** The commits of a chain, oldest first, as the parent pointers name them. */
  function History(head: Option<Digest>): (h: seq<Digest>)
    ensures head.None? ==> h == []
    ensures head.Some? ==> |h| > 0 && h[|h| - 1] == head.value
    decreases head
  {
    match head
    case None => []
    case Some(CommitDigest(c)) => History(c.header.parent) + [head.value]
    case Some(BlobDigest(_)) => [head.value]
  }

  /** The commit at generation g is history[g-1]: it is stored, belongs to the
      ref, names the previous commit as parent, and its skip is exactly the
      commit at g minus its lowest set bit. */
  ghost predicate Link(objects: set<Digest>, resource: string, h: seq<Digest>, k: nat)
    requires k < |h|
  {
    && h[k] in objects
    && h[k].CommitDigest?
    && h[k].commit.header.resource == resource
    && h[k].commit.header.generation == k + 1
    && h[k].commit.header.parent == (if k == 0 then None else Some(h[k - 1]))
    && h[k].commit.header.skip == SkipOf(h, k + 1)
  }

  function SkipOf(h: seq<Digest>, generation: nat): Option<Digest>
    requires generation <= |h| + 1
  {
    var t := SkipTarget(generation);
    if t == 0 then None else Some(h[t - 1])
  }

  ghost predicate Dense(objects: set<Digest>, resource: string, h: seq<Digest>) {
    forall k :: 0 <= k < |h| ==> Link(objects, resource, h, k)
  }

  /** A commit that links to the head of a dense chain extends it by one. */
  lemma DenseExtends(objects: set<Digest>, resource: string, h: seq<Digest>, d: Digest)
    requires Dense(objects, resource, h)
    requires d in objects && d.CommitDigest?
    requires d.commit.header.resource == resource
    requires d.commit.header.generation == |h| + 1
    requires d.commit.header.parent == (if h == [] then None else Some(h[|h| - 1]))
    requires d.commit.header.skip == SkipOf(h, |h| + 1)
    ensures Dense(objects, resource, h + [d])
  {
    var h' := h + [d];
    forall k | 0 <= k < |h'| ensures Link(objects, resource, h', k) {
      if k < |h| {
        assert Link(objects, resource, h, k);
      }
    }
  }

  lemma DenseGrows(objects: set<Digest>, more: set<Digest>, resource: string, h: seq<Digest>)
    requires Dense(objects, resource, h) && objects <= more
    ensures Dense(more, resource, h)
  {
    forall k | 0 <= k < |h| ensures Link(more, resource, h, k) {
      assert Link(objects, resource, h, k);
    }
  }

  // ---- the seek -------------------------------------------------------------

  function LoadView(objects: set<Digest>, d: Digest, resource: string): (r: Result<Commit, SeekError>) {
    if d !in objects || d.BlobDigest? then Err(Missing)
    else if d.commit.header.resource != resource then Err(Foreign)
    else Ok(d.commit)
  }

  /** A well-formed seek: a dense chain of 64-bit generations, started at its head. */
  ghost predicate Seekable(objects: set<Digest>, resource: string, h: seq<Digest>, start: Digest, target: nat) {
    Dense(objects, resource, h) && 1 <= target <= |h| < U64_LIMIT && start == h[|h| - 1]
  }

  /** What one hop sees at generation g of a dense chain. */
  lemma {:induction false} HopView(objects: set<Digest>, resource: string, h: seq<Digest>, g: nat)
    requires Dense(objects, resource, h) && 1 <= g <= |h|
    ensures h[g - 1].CommitDigest? && LoadView(objects, h[g - 1], resource) == Ok(h[g - 1].commit)
    ensures h[g - 1].commit.header.generation == g
    ensures SkipTarget(g) == 0 ==> h[g - 1].commit.header.skip.None?
    ensures SkipTarget(g) > 0 ==> h[g - 1].commit.header.skip == Some(h[SkipTarget(g) - 1])
    ensures g > 1 ==> h[g - 1].commit.header.parent == Some(h[g - 2])
  {
    assert Link(objects, resource, h, g - 1);
  }

  /** Where a seek on a dense chain stands. */
  ghost predicate OnPath(objects: set<Digest>, resource: string, h: seq<Digest>, target: nat, current: Digest) {
    && LoadView(objects, current, resource).Ok?
    && 1 <= target <= current.commit.header.generation <= |h|
    && current == h[current.commit.header.generation - 1]
  }

  lemma {:induction false} SeekSteps(objects: set<Digest>, resource: string, h: seq<Digest>, target: nat,
                                     current: Digest)
    requires Dense(objects, resource, h)
    requires OnPath(objects, resource, h, target, current) && current.commit.header.generation != target
    ensures HopFrom(objects, current.commit.header, target, resource).Ok?
    ensures OnPath(objects, resource, h, target, HopFrom(objects, current.commit.header, target, resource).value)
    ensures HopFrom(objects, current.commit.header, target, resource).value.commit.header.generation
            == NextHop(current.commit.header.generation, target)
  {
    var g := current.commit.header.generation;
    HopView(objects, resource, h, g);
    HopView(objects, resource, h, g - 1);
    if SkipTarget(g) > 0 {
      HopView(objects, resource, h, SkipTarget(g));
    }
  }

  /** Walks skip pointers, then parents, until `target`. Whatever the store
      holds, an answer has the generation and resource asked for; on a dense
      chain the answer is the commit that walking parents would find, and the
      hop cap never fires. */
  method SeekGeneration(objects: set<Digest>, start: Digest, target: nat, resource: string, ghost h: seq<Digest>)
    returns (r: Result<Digest, SeekError>, hops: nat)
    ensures r.Ok? ==> LoadView(objects, r.value, resource).Ok? && r.value.commit.header.generation == target
    ensures Seekable(objects, resource, h, start, target)
            ==> r == Ok(h[target - 1]) && hops == Hops(|h|, target) <= 2080
  {
    hops := 0;
    ghost var good := Seekable(objects, resource, h, start, target);
    if good {
      HopView(objects, resource, h, |h|);
      HopsUnderCap(|h|, target);
    }
    ghost var left := if good then Hops(|h|, target) else 0;
    var first := LoadView(objects, start, resource);
    if first.Err? {
      return Err(first.error), hops;
    }
    var current := start;
    while current.commit.header.generation != target
      invariant LoadView(objects, current, resource).Ok?
      invariant hops <= MAX_SEEK_HOPS
      invariant good ==> OnPath(objects, resource, h, target, current)
      invariant good ==> left == Hops(current.commit.header.generation, target) && hops + left == Hops(|h|, target)
      decreases MAX_SEEK_HOPS - hops
    {
      if good {
        SeekSteps(objects, resource, h, target, current);
        left := left - 1;
      }
      hops := hops + 1;
      if hops > MAX_SEEK_HOPS {
        return Err(TooManyHops), hops;
      }
      if current.commit.header.generation < target {
        return Err(BelowTarget), hops;
      }
      var step := HopFrom(objects, current.commit.header, target, resource);
      if step.Err? {
        return Err(step.error), hops;
      }
      current := step.value;
    }
    return Ok(current), hops;
  }

  /** One hop: the skip when it is sound and does not overshoot, else the parent. */
  function HopFrom(objects: set<Digest>, at: Header, target: nat, resource: string): Result<Digest, SeekError> {
    match at.skip
    case None => HopToParent(objects, at, resource)
    case Some(d) =>
      var view := LoadView(objects, d, resource);
      if view.Err? then Err(view.error)
      else if view.value.header.generation >= at.generation then Err(BadSkip)
      else if view.value.header.generation != SkipTarget(at.generation) then Err(BadSkip)
      else if view.value.header.generation >= target then Ok(d)
      else HopToParent(objects, at, resource)
  }

  function HopToParent(objects: set<Digest>, at: Header, resource: string): Result<Digest, SeekError> {
    match at.parent
    case None => Err(NoParent)
    case Some(d) =>
      var view := LoadView(objects, d, resource);
      if view.Err? then Err(view.error)
      else if view.value.header.generation + 1 != at.generation then Err(BrokenAncestry)
      else Ok(d)
  }

  /** The skip pointer a publication writes, sought through the chain below it,
      is the one a dense chain requires. */
  method ComputeSkip(objects: set<Digest>, generation: nat, parent: Option<Digest>, resource: string,
                     ghost h: seq<Digest>)
    returns (r: Result<Option<Digest>, SeekError>)
    requires generation > 0
    ensures Dense(objects, resource, h) && h == History(parent) && generation == |h| + 1 <= U64_LIMIT
            ==> r == Ok(SkipOf(h, generation))
  {
    var target := SkipTarget(generation);
    if target == 0 {
      return Ok(None);
    }
    if parent.None? {
      return Ok(None);
    }
    if target == generation - 1 {
      return Ok(parent);
    }
    var sought, _ := SeekGeneration(objects, parent.value, target, resource, h);
    if sought.Err? {
      return Err(sought.error);
    }
    return Ok(Some(sought.value));
  }
}
