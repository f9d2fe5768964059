/** The trimmable log: appends (single or grouped), compaction, trim and read over
    one manifest. A chunk is addressed by its frames; the store is the set of
    chunks it holds. */
module LogV2 {
  import opened Words
  import opened Wrappers
  import opened Bits
  import opened Sorting
  import opened Heads
  import opened Chain
  import P = Publish
  import C = Catalog
  import H = Hamt
  import HP = HamtProof
  import HT = HamtTheorems

  type Frame = C.Frame

  datatype Segment = Segment(chunk: seq<Frame>, first: nat, last: nat)

  /** The fields of a manifest that maintenance rewrites. */
  datatype Domain = Domain(
    headSeq: nat,
    chunks: seq<Segment>,
    segments: seq<Segment>,
    trimBefore: nat,
    complete: bool,
    index: Option<H.Root>)

  datatype Item = Item(identity: Identity, request: string, payloads: seq<seq<Byte>>)

  datatype StableItem = StableItem(key: H.Key, payload: seq<Byte>)

  datatype Events = Events(
    domain: Domain,
    chunk: seq<Frame>,
    admitted: seq<Admission>,
    entries: seq<H.Entry>,
    range: Outcome,
    companions: seq<P.Companion>)

  datatype Error =
    Rejected | LeaseHeld | Integrity | RecoveryFailed | NothingToDo | NotFound | Trimmed(resumeAt: nat) | Panic

  const MAX_APPEND_EVENTS: nat := 2_048
  const MAX_APPEND_BYTES: nat := 524_288
  const MAX_ADMISSIONS: nat := 2_048

  // ---- the lease a write takes ---------------------------------------------------------

  function NextWriter(current: RefValue, writer: string, now: int, secs: int, steal: bool)
    : (r: Result<(nat, Lease), Error>)
    ensures r == Err(LeaseHeld)
            <==> && !steal && current.lease.Some? && current.lease.value.leaseUntil > now
                 && current.lease.value.writer != writer
    ensures r == Err(Rejected)
            <==> current.epoch >= U64_MAX && (steal || current.lease.None? || current.lease.value.leaseUntil <= now)
    ensures r.Err? ==> r.error == LeaseHeld || r.error == Rejected
    ensures r.Ok? ==> r.value.1 == Lease(writer, now + secs) && current.epoch <= r.value.0 <= current.epoch + 1
    ensures r.Ok? ==> (r.value.0 == current.epoch
                       <==> && !steal && current.lease.Some? && current.lease.value.leaseUntil > now
                            && current.lease.value.writer == writer)
  {
    if current.lease.Some? && current.lease.value.leaseUntil > now && !steal then
      if current.lease.value.writer != writer then Err(LeaseHeld)
      else Ok((current.epoch, Lease(writer, now + secs)))
    else if current.epoch >= U64_MAX then Err(Rejected)
    else Ok((current.epoch + 1, Lease(writer, now + secs)))
  }

  // ---- payloads -------------------------------------------------------------------------

  function Bytes(payloads: seq<seq<Byte>>): nat {
    if payloads == [] then 0 else Bytes(payloads[..|payloads| - 1]) + |payloads[|payloads| - 1]|
  }

  predicate PayloadsOk(payloads: seq<seq<Byte>>) {
    1 <= |payloads| <= MAX_APPEND_EVENTS && Bytes(payloads) <= MAX_APPEND_BYTES
  }

  /** check_payloads: the byte count is a fold. */
  method CheckPayloads(payloads: seq<seq<Byte>>) returns (ok: bool)
    ensures ok == PayloadsOk(payloads)
    ensures ok <==> 1 <= |payloads| <= MAX_APPEND_EVENTS && Bytes(payloads) <= MAX_APPEND_BYTES
  {
    if payloads == [] || |payloads| > MAX_APPEND_EVENTS {
      return false;
    }
    var bytes := 0;
    for i := 0 to |payloads|
      invariant bytes == Bytes(payloads[..i])
    {
      assert payloads[..i + 1][..i] == payloads[..i];
      bytes := bytes + |payloads[i]|;
    }
    assert payloads[..|payloads|] == payloads;
    return bytes <= MAX_APPEND_BYTES;
  }

  /** Payloads of the first k items, in order. */
  function Gathered(items: seq<Item>): seq<seq<Byte>> {
    if items == [] then [] else Gathered(items[..|items| - 1]) + items[|items| - 1].payloads
  }

  function StablePayloads(stables: seq<StableItem>): (p: seq<seq<Byte>>)
    ensures |p| == |stables|
  {
    seq(|stables|, k requires 0 <= k < |stables| => stables[k].payload)
  }

  /** The admission of each item: its range starts right after the last one's. */
  function Admissions(items: seq<Item>, head: nat): (a: seq<Admission>)
    ensures |a| == |items|
  {
    if items == [] then []
    else
      var rest, last := items[..|items| - 1], items[|items| - 1];
      var n := head + |Gathered(rest)|;
      Admissions(rest, head) + [Admission(last.identity, last.request, n + 1, n + |last.payloads|)]
  }

  function FramesFrom(first: nat, payloads: seq<seq<Byte>>): (f: seq<Frame>)
    ensures |f| == |payloads|
  {
    seq(|payloads|, k requires 0 <= k < |payloads| => C.Frame(first + k, payloads[k]))
  }

  function EntriesOf(stables: seq<StableItem>, head: nat, generation: nat): (e: seq<H.Entry>)
    requires head + |stables| <= U64_MAX
    ensures |e| == |stables|
  {
    seq(|stables|, k requires 0 <= k < |stables| =>
      H.Entry(stables[k].key, stables[k].payload, (head + k + 1) as U64, (head + k + 1) as U64, generation))
  }

  // ---- preparing an append -----------------------------------------------------------------

  /** What a successful append makes of the domain and of its items. */
  ghost predicate Extends(d: Domain, generics: seq<Item>, stables: seq<StableItem>, generation: nat, e: Events) {
    var all := Gathered(generics) + StablePayloads(stables);
    var head := d.headSeq + |all|;
    && all != [] && head < U64_MAX
    && e.chunk == FramesFrom(d.headSeq + 1, all)
    && e.domain.headSeq == head
    && e.domain.chunks == d.chunks + [Segment(e.chunk, d.headSeq + 1, head)]
    && e.domain.segments == d.segments && e.domain.trimBefore == d.trimBefore
    && e.admitted == Admissions(generics, d.headSeq)
    && (generics != [] ==>
          e.companions == P.CompanionsOf(e.admitted)[1..] && e.range == P.CompanionsOf(e.admitted)[0].result)
    && (generics == [] ==> e.companions == [] && e.range == Range(d.headSeq + 1, d.headSeq + 1))
    && e.entries == EntriesOf(stables, d.headSeq + |Gathered(generics)|, generation)
    && (stables == [] && e.domain.complete && d.index.Some? ==> e.domain.index == d.index)
    && (e.domain.complete <==> e.domain.index.Some?)
  }

  lemma CompanionsSnoc(admitted: seq<Admission>, a: Admission)
    ensures |P.CompanionsOf(admitted)| == |admitted|
    ensures P.CompanionsOf(admitted + [a])
            == P.CompanionsOf(admitted) + [P.Companion(a.identity, Range(a.first, a.last))]
  {
  }

  /** The loop over the generic items of a group. */
  method AdmitGenerics(head: nat, generics: seq<Item>)
    returns (ok: bool, all: seq<seq<Byte>>, admitted: seq<Admission>, companions: seq<P.Companion>,
             leader: Option<Outcome>)
    ensures ok <==> (forall k :: 0 <= k < |generics| ==> PayloadsOk(generics[k].payloads))
                    && (generics != [] ==> head + |Gathered(generics)| <= U64_MAX)
    ensures ok ==>
              && all == Gathered(generics) && admitted == Admissions(generics, head)
              && (if generics == [] then companions == [] && leader == None
                  else && companions == P.CompanionsOf(admitted)[1..]
                       && leader == Some(P.CompanionsOf(admitted)[0].result))
  {
    hide Gathered, Admissions, Bytes, P.CompanionsOf;
    all, admitted, companions, leader := [], [], [], None;
    var last := head;
    assert generics[..0] == [];
    NothingAdmitted(head);
    for i := 0 to |generics|
      invariant last == head + |Gathered(generics[..i])| && (i > 0 ==> last <= U64_MAX)
      invariant all == Gathered(generics[..i]) && admitted == Admissions(generics[..i], head)
      invariant |P.CompanionsOf(admitted)| == |admitted| == i
      invariant companions == if i == 0 then [] else P.CompanionsOf(admitted)[1..]
      invariant leader == if i == 0 then None else Some(P.CompanionsOf(admitted)[0].result)
      invariant forall k :: 0 <= k < i ==> PayloadsOk(generics[k].payloads)
    {
      var g := generics[i];
      assert generics[..i + 1] == generics[..i] + [g];
      AdmitSnoc(generics[..i], g, head);
      GatheredGrows(generics, i + 1);
      var valid := CheckPayloads(g.payloads);
      if !valid || last + |g.payloads| > U64_MAX {
        return false, all, admitted, companions, leader;
      }
      var first := last + 1;
      last := first + (|g.payloads| - 1);
      all := all + g.payloads;
      CompanionsSnoc(admitted, Admission(g.identity, g.request, first, last));
      admitted := admitted + [Admission(g.identity, g.request, first, last)];
      if i == 0 {
        leader := Some(Range(first, last));
      } else {
        companions := companions + [P.Companion(g.identity, Range(first, last))];
      }
    }
    assert generics[..|generics|] == generics;
    ok := true;
  }

  lemma NothingAdmitted(head: nat)
    ensures Gathered([]) == [] && Admissions([], head) == [] && P.CompanionsOf([]) == []
  {
  }

  lemma AdmitSnoc(items: seq<Item>, g: Item, head: nat)
    ensures Gathered(items + [g]) == Gathered(items) + g.payloads
    ensures Admissions(items + [g], head)
            == Admissions(items, head) + [Admission(g.identity, g.request, head + |Gathered(items)| + 1,
                                                    head + |Gathered(items)| + |g.payloads|)]
  {
    assert (items + [g])[..|items|] == items;
  }

  lemma {:induction false} GatheredGrows(items: seq<Item>, k: nat)
    requires k <= |items|
    ensures |Gathered(items[..k])| <= |Gathered(items)|
  {
    if k < |items| {
      GatheredGrows(items[..|items| - 1], k);
      assert items[..|items| - 1][..k] == items[..k];
    } else {
      assert items[..k] == items;
    }
  }

  /** What adding to an index leaves. */
  datatype Indexing = Indexing(nodes: set<H.Digest>, result: Result<Option<H.Root>, Error>)

  function StableError(e: H.Error): Error {
    if e.Integrity? then Integrity else if e.Rejected? then Rejected else RecoveryFailed
  }

  function EntryAt(s: StableItem, at: U64, generation: nat): H.Entry {
    H.Entry(s.key, s.payload, at, at, generation)
  }

  /** Adding the stable items one by one after sequence `head`, up to the first
      that is refused. */
  function AddStables(nodes: set<H.Digest>, root: Option<H.Root>, head: nat, stables: seq<StableItem>, generation: nat)
    : (w: Indexing)
    requires stables != [] ==> root.Some?
    ensures nodes <= w.nodes && (w.result.Ok? ==> (w.result.value.Some? <==> root.Some?))
    ensures stables != [] && w.result.Ok? ==> head + |stables| <= U64_MAX
    ensures stables == [] ==> w == Indexing(nodes, Ok(root))
  {
    if stables == [] then Indexing(nodes, Ok(root))
    else
      var rest := stables[..|stables| - 1];
      AddStable(AddStables(nodes, root, head, rest, generation), stables[|stables| - 1], head + |rest|, generation)
  }

  /** One more item, after sequence `last`. */
  function AddStable(w: Indexing, s: StableItem, last: nat, generation: nat): (w': Indexing)
    requires w.result.Ok? ==> w.result.value.Some?
    ensures w.nodes <= w'.nodes && (w'.result.Ok? ==> w'.result.value.Some? && last < U64_MAX)
  {
    if w.result.Err? then w
    else if !PayloadsOk([s.payload]) || last >= U64_MAX then Indexing(w.nodes, Err(Rejected))
    else
      var at: U64 := last + 1;
      var i := H.Insert(w.nodes, w.result.value.value, EntryAt(s, at, generation), H.Head(generation, at));
      Indexing(i.store, match i.result case Ok(r) => Ok(Some(r)) case Err(e) => Err(StableError(e)))
  }

  lemma AddOneMore(nodes: set<H.Digest>, root: H.Root, head: nat, stables: seq<StableItem>, s: StableItem,
                   generation: nat)
    ensures AddStables(nodes, Some(root), head, stables + [s], generation)
            == AddStable(AddStables(nodes, Some(root), head, stables, generation), s, head + |stables|, generation)
  {
    hide AddStable;
    assert (stables + [s])[..|stables|] == stables;
  }

  /** A refusal ends the loop. */
  lemma {:induction false} RefusalStands(nodes: set<H.Digest>, root: H.Root, head: nat, stables: seq<StableItem>,
                                         generation: nat, k: nat)
    requires k <= |stables| && AddStables(nodes, Some(root), head, stables[..k], generation).result.Err?
    ensures AddStables(nodes, Some(root), head, stables, generation)
            == AddStables(nodes, Some(root), head, stables[..k], generation)
    decreases |stables|
  {
    hide AddStables;
    if k < |stables| {
      var rest := stables[..|stables| - 1];
      assert rest[..k] == stables[..k] && stables == rest + [stables[|stables| - 1]];
      RefusalStands(nodes, root, head, rest, generation, k);
      AddOneMore(nodes, root, head, rest, stables[|stables| - 1], generation);
    } else {
      assert stables[..k] == stables;
    }
  }

  /** The loop over the stable items: one sequence and one index entry each. */
  method AdmitStables(nodes: set<H.Digest>, root: Option<H.Root>, head: nat, stables: seq<StableItem>, generation: nat)
    returns (nodes': set<H.Digest>, r: Result<(seq<H.Entry>, Option<H.Root>), Error>)
    requires stables != [] ==> root.Some?
    ensures var w := AddStables(nodes, root, head, stables, generation);
            && nodes' == w.nodes && (r.Ok? <==> w.result.Ok?)
            && (r.Err? ==> r.error == w.result.error)
            && (r.Ok? && stables == [] ==> r.value == ([], root))
            && (r.Ok? && stables != [] ==>
                  head + |stables| <= U64_MAX && r.value == (EntriesOf(stables, head, generation), w.result.value))
    ensures r.Ok? ==> forall k :: 0 <= k < |stables| ==> PayloadsOk([stables[k].payload])
    ensures r.Err? ==> r.error == Integrity || r.error == Rejected || r.error == RecoveryFailed
  {
    hide H.Insert, PayloadsOk, AddStables;
    nodes' := nodes;
    var index, entries: seq<H.Entry>, last := root, [], head;
    assert stables[..0] == [];
    for j := 0 to |stables|
      invariant last == head + j && (j > 0 ==> last <= U64_MAX) && (stables != [] ==> index.Some?)
      invariant AddStables(nodes, root, head, stables[..j], generation) == Indexing(nodes', Ok(index))
      invariant |entries| == j && (j > 0 ==> entries == EntriesOf(stables[..j], head, generation))
      invariant forall k :: 0 <= k < j ==> PayloadsOk([stables[k].payload])
    {
      var s := stables[j];
      assert stables[..j + 1] == stables[..j] + [s];
      AddOneMore(nodes, root.value, head, stables[..j], s, generation);
      var valid := CheckPayloads([s.payload]);
      if !valid || last >= U64_MAX {
        RefusalStands(nodes, root.value, head, stables, generation, j + 1);
        return nodes', Err(Rejected);
      }
      var at: U64 := last + 1;
      last := at;
      var entry := EntryAt(s, at, generation);
      var w := H.Insert(nodes', index.value, entry, H.Head(generation, at));
      nodes' := w.store;
      if w.result.Err? {
        RefusalStands(nodes, root.value, head, stables, generation, j + 1);
        return nodes', Err(StableError(w.result.error));
      }
      index := Some(w.result.value);
      entries := entries + [entry];
      assert stables[..j + 1][..j] == stables[..j];
    }
    assert stables[..|stables|] == stables;
    r := Ok((entries, index));
  }

  // ---- an index of S -------------------------------------------------------------------------

  /** Stable items an index of S takes: within the payload limits, each under a
      path that neither S nor an earlier item has. */
  predicate Addable(S: set<H.Entry>, stables: seq<StableItem>) {
    && (forall k :: 0 <= k < |stables| ==> PayloadsOk([stables[k].payload]) && !HT.SamePath(S, stables[k].key.path))
    && (forall j, k :: 0 <= j < k < |stables| ==> stables[j].key.path != stables[k].key.path)
  }

  /** The key of item k is stored, or is that of an earlier item. */
  predicate KeyKnown(S: set<H.Entry>, stables: seq<StableItem>, k: nat)
    requires k < |stables|
  {
    HT.SameKey(S, stables[k].key) || exists j :: 0 <= j < k && stables[j].key == stables[k].key
  }

  /** The first item refused after sequence `head` is refused for its key. */
  predicate KeyTaken(S: set<H.Entry>, stables: seq<StableItem>, head: nat) {
    exists k :: 0 <= k < |stables| && TakenAt(S, stables, head, k)
  }

  predicate TakenAt(S: set<H.Entry>, stables: seq<StableItem>, head: nat, k: nat)
    requires k < |stables|
  {
    Addable(S, stables[..k]) && head + k < U64_MAX && PayloadsOk([stables[k].payload]) && KeyKnown(S, stables, k)
  }

  /** One insertion at the next sequence. */
  lemma IndexTakesOne(nodes: set<H.Digest>, root: H.Root, T: set<H.Entry>, e: H.Entry, generation: nat, at: U64)
    requires 1 <= at && 1 <= generation && HT.Represents(nodes, root, T, H.Head(generation, at - 1))
    requires e.first == e.last == at && e.generation == generation
    ensures var w := H.Insert(nodes, root, e, H.Head(generation, at));
            && (w.result.Ok? <==> !HT.SamePath(T, e.key.path))
            && (w.result.Ok? ==> HT.Represents(w.store, w.result.value, T + {e}, H.Head(generation, at)))
            && (w.result.Err? ==>
                if HT.SameKey(T, e.key) then w.result.error == H.RecoveryFailed else w.result.error == H.Rejected)
  {
    hide H.Insert, HP.Build, HP.Stored;
    HT.RepresentsUnderLaterHead(nodes, root, T, H.Head(generation, at - 1), H.Head(generation, at));
    HT.InsertRefines(nodes, root, T, e, H.Head(generation, at));
  }

  lemma TakenByEntries(S: set<H.Entry>, stables: seq<StableItem>, head: nat, generation: nat, key: H.Key)
    requires head + |stables| <= U64_MAX
    ensures var T := S + HT.SetOf(EntriesOf(stables, head, generation));
            && (HT.SamePath(T, key.path)
                <==> HT.SamePath(S, key.path) || exists j :: 0 <= j < |stables| && stables[j].key.path == key.path)
            && (HT.SameKey(T, key) <==> HT.SameKey(S, key) || exists j :: 0 <= j < |stables| && stables[j].key == key)
  {
    var es := EntriesOf(stables, head, generation);
    var T := S + HT.SetOf(es);
    forall j | 0 <= j < |stables| ensures es[j] in T && es[j].key == stables[j].key {
    }
    forall x | x in T && x !in S ensures exists j :: 0 <= j < |stables| && stables[j].key == x.key {
      var j :| 0 <= j < |es| && es[j] == x;
    }
  }

  /** What one more item adds to the test, and to a refusal. */
  lemma NextIsAddable(S: set<H.Entry>, stables: seq<StableItem>, j: nat, entries: seq<H.Entry>, head: nat,
                      generation: nat)
    requires j < |stables| && head + j <= U64_MAX && Addable(S, stables[..j])
    requires if j == 0 then entries == [] else entries == EntriesOf(stables[..j], head, generation)
    ensures var T := S + HT.SetOf(entries);
            && (Addable(S, stables[..j + 1])
                <==> PayloadsOk([stables[j].payload]) && !HT.SamePath(T, stables[j].key.path))
            && (Addable(S, stables) ==> Addable(S, stables[..j + 1]))
            && (HT.SameKey(T, stables[j].key) <==> KeyKnown(S, stables, j))
  {
    hide PayloadsOk, HT.SamePath, HT.SameKey;
    assert EntriesOf(stables[..j], head, generation) == entries;
    TakenByEntries(S, stables[..j], head, generation, stables[j].key);
  }

  lemma NothingAdded(S: set<H.Entry>)
    ensures S + HT.SetOf([]) == S && Addable(S, [])
  {
  }

  /** On an index of S the items are added exactly when they are addable, and what
      is left is an index of S and their entries. */
  lemma {:induction false} AddStablesExact(nodes: set<H.Digest>, root: H.Root, S: set<H.Entry>, head: nat,
                                           stables: seq<StableItem>, generation: nat)
    requires generation >= 1 && HT.Represents(nodes, root, S, H.Head(generation, head)) && head <= U64_MAX
    ensures var w := AddStables(nodes, Some(root), head, stables, generation);
            && (w.result.Ok? <==> Addable(S, stables) && head + |stables| <= U64_MAX)
            && (w.result.Ok? ==>
                  HT.Represents(w.nodes, w.result.value.value, S + HT.SetOf(EntriesOf(stables, head, generation)),
                                H.Head(generation, head + |stables|)))
            && (w.result.Err? ==>
                  w.result.error == if KeyTaken(S, stables, head) then RecoveryFailed else Rejected)
  {
    hide H.Insert, PayloadsOk, HT.Represents, HT.SamePath, HT.SameKey, AddStables, Addable, KeyTaken, KeyKnown,
        HT.SetOf;
    if stables == [] {
      NothingAdded(S);
      assert EntriesOf([], head, generation) == [];
    } else {
      var j := |stables| - 1;
      var rest, s := stables[..j], stables[j];
      assert stables == rest + [s] && stables[..j + 1] == stables;
      AddStablesExact(nodes, root, S, head, rest, generation);
      AddOneMore(nodes, root, head, rest, s, generation);
      KeyTakenSnoc(S, stables, head);
      AddablePrefix(S, stables, j);
      if Addable(S, rest) && head + j <= U64_MAX {
        var w := AddStables(nodes, Some(root), head, rest, generation);
        var entries := EntriesOf(rest, head, generation);
        NextIsAddable(S, stables, j, entries, head, generation);
        if PayloadsOk([s.payload]) && head + j < U64_MAX {
          var e := EntryAt(s, head + |stables|, generation);
          IndexTakesOne(w.nodes, w.result.value.value, S + HT.SetOf(entries), e, generation, head + |stables|);
          EntriesSnoc(S, rest, s, head, generation);
        }
      }
    }
  }

  lemma AddablePrefix(S: set<H.Entry>, stables: seq<StableItem>, j: nat)
    requires j <= |stables|
    ensures Addable(S, stables) ==> Addable(S, stables[..j])
  {
    hide PayloadsOk, HT.SamePath;
  }

  lemma KeyTakenSnoc(S: set<H.Entry>, stables: seq<StableItem>, head: nat)
    requires stables != []
    ensures var j := |stables| - 1;
            && (KeyTaken(S, stables, head) <==> KeyTaken(S, stables[..j], head) || TakenAt(S, stables, head, j))
            && (Addable(S, stables[..j]) ==> !KeyTaken(S, stables[..j], head))
  {
    hide PayloadsOk, Addable, KeyKnown;
    var j := |stables| - 1;
    var rest := stables[..j];
    forall k | 0 <= k < j ensures TakenAt(S, rest, head, k) <==> TakenAt(S, stables, head, k) {
      assert rest[..k] == stables[..k];
      EarlierKnown(S, stables, j, k);
    }
    if Addable(S, rest) {
      forall k | 0 <= k < j ensures !KeyKnown(S, rest, k) {
        AddableUnknown(S, rest, k);
      }
    }
  }

  lemma EarlierKnown(S: set<H.Entry>, stables: seq<StableItem>, j: nat, k: nat)
    requires k < j <= |stables|
    ensures KeyKnown(S, stables[..j], k) <==> KeyKnown(S, stables, k)
  {
    hide HT.SameKey;
    assert forall i :: 0 <= i < j ==> stables[..j][i] == stables[i];
  }

  lemma AddableUnknown(S: set<H.Entry>, stables: seq<StableItem>, k: nat)
    requires Addable(S, stables) && k < |stables|
    ensures !KeyKnown(S, stables, k)
  {
    hide PayloadsOk;
  }

  lemma EntriesSnoc(S: set<H.Entry>, rest: seq<StableItem>, s: StableItem, head: nat, generation: nat)
    requires head + |rest| < U64_MAX
    ensures var e := EntryAt(s, head + |rest| + 1, generation);
            S + HT.SetOf(EntriesOf(rest + [s], head, generation))
                == S + HT.SetOf(EntriesOf(rest, head, generation)) + {e}
  {
    var e := EntryAt(s, head + |rest| + 1, generation);
    assert EntriesOf(rest + [s], head, generation) == EntriesOf(rest, head, generation) + [e];
  }

  /** The index an append starts from, if it keeps one: the domain's, or a new one. */
  function StartIndex(nodes: set<H.Digest>, d: Domain, keep: bool): (w: Indexing)
    ensures nodes <= w.nodes && w.result.Ok? && (w.result.value.Some? <==> keep)
  {
    if !keep then Indexing(nodes, Ok(None))
    else if d.index.Some? then Indexing(nodes, Ok(d.index))
    else Indexing(H.EmptyRoot(nodes).store, Ok(Some(H.EmptyRoot(nodes).result.value)))
  }

  /** The index an append leaves, or why its stable items are refused. */
  function Reindex(nodes: set<H.Digest>, d: Domain, completeFeed: bool, generics: seq<Item>, stables: seq<StableItem>,
                   generation: nat)
    : Indexing
  {
    var start := StartIndex(nodes, d, d.complete || completeFeed || stables != []);
    AddStables(start.nodes, start.result.value, d.headSeq + |Gathered(generics)|, stables, generation)
  }

  /** When an append is prepared. */
  predicate MayPrepare(nodes: set<H.Digest>, target: Option<Domain>, completeFeed: bool,
                       generics: seq<Item>, stables: seq<StableItem>, generation: nat)
  {
    var d := DomainOf(target, completeFeed);
    && (target.Some? && (d.complete || completeFeed) ==> d.index.Some?)
    && 1 <= |generics| + |stables| <= MAX_ADMISSIONS
    && (forall k :: 0 <= k < |generics| ==> PayloadsOk(generics[k].payloads))
    && Reindex(nodes, d, completeFeed, generics, stables, generation).result.Ok?
    && d.headSeq + |Gathered(generics)| + |stables| < U64_MAX
  }

  /** The generic items' part of it. */
  predicate GenericsOk(head: nat, generics: seq<Item>) {
    && (forall k :: 0 <= k < |generics| ==> PayloadsOk(generics[k].payloads))
    && (generics != [] ==> head + |Gathered(generics)| <= U64_MAX)
  }

  /** Why an append that may not be prepared is refused: the missing index first,
      then the generic items, then the stable ones, then the caps. */
  function RefusalOf(nodes: set<H.Digest>, target: Option<Domain>, completeFeed: bool, generics: seq<Item>,
                     stables: seq<StableItem>, generation: nat)
    : Error
  {
    var d := DomainOf(target, completeFeed);
    if target.Some? && (d.complete || completeFeed) && d.index.None? then Integrity
    else if !GenericsOk(d.headSeq, generics) then Rejected
    else
      match Reindex(nodes, d, completeFeed, generics, stables, generation).result
      case Err(e) => e
      case Ok(_) => Rejected
  }

  /** A prepared append: when it may be, and what it makes of domain and index. */
  ghost predicate Prepares(nodes: set<H.Digest>, target: Option<Domain>, completeFeed: bool,
                           generics: seq<Item>, stables: seq<StableItem>, generation: nat,
                           nodes': set<H.Digest>, e: Events)
  {
    var d := DomainOf(target, completeFeed);
    && MayPrepare(nodes, target, completeFeed, generics, stables, generation)
    && Extends(d, generics, stables, generation, e)
    && Reindex(nodes, d, completeFeed, generics, stables, generation) == Indexing(nodes', Ok(e.domain.index))
  }

  method KeepIndex(nodes: set<H.Digest>, d: Domain, keep: bool) returns (nodes': set<H.Digest>, index: Option<H.Root>)
    ensures Indexing(nodes', Ok(index)) == StartIndex(nodes, d, keep)
    ensures keep && d.index.Some? ==> index == d.index
  {
    nodes', index := nodes, None;
    if keep {
      if d.index.Some? {
        index := d.index;
      } else {
        var w := H.EmptyRoot(nodes');
        nodes', index := w.store, Some(w.result.value);
      }
    }
  }

  /** prepare_events, after the lease: sequences are handed out item by item, then
      to the stable items, and one chunk holds them all. */
  method PrepareEvents(nodes: set<H.Digest>, target: Option<Domain>, completeFeed: bool,
                       generics: seq<Item>, stables: seq<StableItem>, generation: nat)
    returns (nodes': set<H.Digest>, r: Result<Events, Error>)
    ensures nodes <= nodes'
    ensures r.Ok? <==> MayPrepare(nodes, target, completeFeed, generics, stables, generation)
    ensures r.Ok? ==> Prepares(nodes, target, completeFeed, generics, stables, generation, nodes', r.value)
    ensures r.Ok? ==> (forall k :: 0 <= k < |stables| ==> PayloadsOk([stables[k].payload]))
    ensures r.Err? ==> r.error == RefusalOf(nodes, target, completeFeed, generics, stables, generation)
  {
    hide PayloadsOk, P.CompanionsOf, Extends, Gathered, Admissions, EntriesOf, StablePayloads, FramesFrom, DomainOf,
         WithChunk, AddStables, StartIndex;
    nodes' := nodes;
    var domain := DomainOf(target, completeFeed);
    var complete := domain.complete || completeFeed;
    if complete && target.Some? && domain.index.None? {
      return nodes', Err(Integrity);
    }
    var ok, all, admitted, companions, leader := AdmitGenerics(domain.headSeq, generics);
    if !ok {
      return nodes', Err(Rejected);
    }
    var keepIndex := complete || stables != [];
    var index;
    nodes', index := KeepIndex(nodes', domain, keepIndex);
    var admittedStables;
    nodes', admittedStables := AdmitStables(nodes', index, domain.headSeq + |all|, stables, generation);
    if admittedStables.Err? {
      return nodes', Err(admittedStables.error);
    }
    var (entries, indexed) := admittedStables.value;
    var range := if leader.Some? then leader.value else Range(domain.headSeq + 1, domain.headSeq + 1);
    all := all + StablePayloads(stables);
    SomethingGathered(generics);
    if |admitted| + |entries| > MAX_ADMISSIONS || all == [] || domain.headSeq + 1 + |all| > U64_MAX {
      return nodes', Err(Rejected);
    }
    var e := WithChunk(domain, all, keepIndex, indexed, admitted, entries, range, companions);
    WithChunkExtends(domain, generics, stables, generation, all, keepIndex, indexed, admitted, entries, range,
                     companions);
    return nodes', Ok(e);
  }

  /** build_chunk and the manifest's new fields. */
  function WithChunk(d: Domain, all: seq<seq<Byte>>, complete: bool, index: Option<H.Root>, admitted: seq<Admission>,
                     entries: seq<H.Entry>, range: Outcome, companions: seq<P.Companion>): Events
  {
    var chunk := FramesFrom(d.headSeq + 1, all);
    Events(d.(chunks := d.chunks + [Segment(chunk, d.headSeq + 1, d.headSeq + |all|)],
              headSeq := d.headSeq + |all|, complete := complete, index := index),
           chunk, admitted, entries, range, companions)
  }

  lemma WithChunkExtends(d: Domain, generics: seq<Item>, stables: seq<StableItem>, generation: nat,
                         all: seq<seq<Byte>>, complete: bool, index: Option<H.Root>, admitted: seq<Admission>,
                         entries: seq<H.Entry>, range: Outcome, companions: seq<P.Companion>)
    requires all == Gathered(generics) + StablePayloads(stables) && all != [] && d.headSeq + |all| < U64_MAX
    requires admitted == Admissions(generics, d.headSeq)
    requires entries == EntriesOf(stables, d.headSeq + |Gathered(generics)|, generation)
    requires if generics == [] then companions == [] && range == Range(d.headSeq + 1, d.headSeq + 1)
             else companions == P.CompanionsOf(admitted)[1..] && range == P.CompanionsOf(admitted)[0].result
    requires complete <==> index.Some?
    requires stables == [] && complete && d.index.Some? ==> index == d.index
    ensures var e := WithChunk(d, all, complete, index, admitted, entries, range, companions);
            && Extends(d, generics, stables, generation, e)
            && e.entries == entries && e.domain.index == index && e.domain.headSeq == d.headSeq + |all|
  {
    hide Gathered, Admissions, EntriesOf, StablePayloads, P.CompanionsOf, FramesFrom;
  }

  function DomainOf(target: Option<Domain>, completeFeed: bool): Domain {
    if target.Some? then target.value else Domain(0, [], [], 0, completeFeed, None)
  }

  lemma SomethingGathered(items: seq<Item>)
    ensures items == [] ==> Gathered(items) == []
    ensures items != [] && (forall k :: 0 <= k < |items| ==> PayloadsOk(items[k].payloads)) ==> Gathered(items) != []
  {
  }

  // ---- appends to an index of S ---------------------------------------------------------------

  /** The domain's index, if it has one, stands for S. */
  ghost predicate Indexed(nodes: set<H.Digest>, d: Domain, S: set<H.Entry>, generation: nat) {
    generation >= 1
    && if d.index.Some? then HT.Represents(nodes, d.index.value, S, H.Head(generation, d.headSeq)) else S == {}
  }

  /** When an append is prepared, on an index of S. */
  predicate MayAppend(target: Option<Domain>, completeFeed: bool, generics: seq<Item>, stables: seq<StableItem>,
                      S: set<H.Entry>)
  {
    var d := DomainOf(target, completeFeed);
    && (target.Some? && (d.complete || completeFeed) ==> d.index.Some?)
    && 1 <= |generics| + |stables| <= MAX_ADMISSIONS
    && (forall k :: 0 <= k < |generics| ==> PayloadsOk(generics[k].payloads))
    && Addable(S, stables)
    && d.headSeq + |Gathered(generics)| + |stables| < U64_MAX
  }

  /** On an index of S an append is prepared exactly when it may be, and leaves an
      index of S and its entries. */
  lemma MayPrepareExactly(nodes: set<H.Digest>, target: Option<Domain>, completeFeed: bool,
                          generics: seq<Item>, stables: seq<StableItem>, generation: nat, S: set<H.Entry>)
    requires Indexed(nodes, DomainOf(target, completeFeed), S, generation)
    ensures MayPrepare(nodes, target, completeFeed, generics, stables, generation)
            <==> MayAppend(target, completeFeed, generics, stables, S)
    ensures MayPrepare(nodes, target, completeFeed, generics, stables, generation) ==>
              var d := DomainOf(target, completeFeed);
              var w := Reindex(nodes, d, completeFeed, generics, stables, generation);
              var head := d.headSeq + |Gathered(generics)|;
              w.result.value.Some? ==>
                HT.Represents(w.nodes, w.result.value.value, S + HT.SetOf(EntriesOf(stables, head, generation)),
                              H.Head(generation, head + |stables|))
  {
    hide PayloadsOk, AddStables, Gathered, EntriesOf, HT.Represents, HT.SamePath, HT.SetOf, Addable, DomainOf,
        H.EmptyRoot;
    var d := DomainOf(target, completeFeed);
    var head := d.headSeq + |Gathered(generics)|;
    var start := StartIndex(nodes, d, d.complete || completeFeed || stables != []);
    NothingAdded(S);
    StartRepresents(nodes, d, d.complete || completeFeed || stables != [], head, S, generation);
    if start.result.value.Some? && head <= U64_MAX {
      AddStablesExact(start.nodes, start.result.value.value, S, head, stables, generation);
    }
  }

  /** Why an append to an index of S is refused. */
  lemma RefusedExactly(nodes: set<H.Digest>, target: Option<Domain>, completeFeed: bool,
                       generics: seq<Item>, stables: seq<StableItem>, generation: nat, S: set<H.Entry>)
    requires Indexed(nodes, DomainOf(target, completeFeed), S, generation)
    requires DomainOf(target, completeFeed).headSeq <= U64_MAX
    requires !MayAppend(target, completeFeed, generics, stables, S)
    ensures var d := DomainOf(target, completeFeed);
            RefusalOf(nodes, target, completeFeed, generics, stables, generation)
            == if target.Some? && (d.complete || completeFeed) && d.index.None? then Integrity
               else if GenericsOk(d.headSeq, generics) && KeyTaken(S, stables, d.headSeq + |Gathered(generics)|)
               then RecoveryFailed
               else Rejected
  {
    hide PayloadsOk, AddStables, Gathered, HT.Represents, HT.SamePath, Addable, KeyTaken, DomainOf, H.EmptyRoot;
    var d := DomainOf(target, completeFeed);
    var head := d.headSeq + |Gathered(generics)|;
    var start := StartIndex(nodes, d, d.complete || completeFeed || stables != []);
    NothingTakenOf(S, head);
    StartRepresents(nodes, d, d.complete || completeFeed || stables != [], head, S, generation);
    if start.result.value.Some? && GenericsOk(d.headSeq, generics) {
      SomethingGathered(generics);
      AddStablesExact(start.nodes, start.result.value.value, S, head, stables, generation);
      AddedHasNoneTaken(S, stables, head);
    }
  }

  lemma NothingTakenOf(S: set<H.Entry>, head: nat)
    ensures !KeyTaken(S, [], head)
  {
  }

  lemma AddedHasNoneTaken(S: set<H.Entry>, stables: seq<StableItem>, head: nat)
    ensures Addable(S, stables) ==> !KeyTaken(S, stables, head)
  {
    hide PayloadsOk, Addable, KeyKnown;
    if Addable(S, stables) {
      forall k | 0 <= k < |stables| ensures !KeyKnown(S, stables, k) {
        AddableUnknown(S, stables, k);
      }
    }
  }

  lemma StartRepresents(nodes: set<H.Digest>, d: Domain, keep: bool, head: nat, S: set<H.Entry>, generation: nat)
    requires Indexed(nodes, d, S, generation) && d.headSeq <= head
    ensures var w := StartIndex(nodes, d, keep);
            keep ==> HT.Represents(w.nodes, w.result.value.value, S, H.Head(generation, head))
  {
    hide HT.Represents, H.EmptyRoot;
    if d.index.Some? {
      HT.RepresentsUnderLaterHead(nodes, d.index.value, S, H.Head(generation, d.headSeq), H.Head(generation, head));
    } else {
      HT.EmptyRepresents(nodes, H.Head(generation, head));
    }
  }

  // ---- sorting frames ----------------------------------------------------------------------

  predicate ByPosition(f: Frame, g: Frame) {
    f.position <= g.position
  }

  predicate Ascending(s: seq<Frame>) {
    Sorted(s, ByPosition)
  }

  /** sort_by_key on the position. */
  function SortFrames(s: seq<Frame>): (r: seq<Frame>)
    ensures |r| == |s|
  {
    Sort(s, ByPosition)
  }

  /** Sorting keeps every frame and puts positions in order. */
  lemma SortSorts(s: seq<Frame>)
    ensures multiset(SortFrames(s)) == multiset(s)
    ensures forall j, k :: 0 <= j < k < |s| ==> SortFrames(s)[j].position <= SortFrames(s)[k].position
  {
    Sorting.SortSorts(s, ByPosition);
  }

  lemma AscendingStays(s: seq<Frame>)
    requires Ascending(s)
    ensures SortFrames(s) == s
  {
    SortedStays(s, ByPosition);
  }

  // ---- maintenance -----------------------------------------------------------------------------

  function Flat(refs: seq<Segment>): seq<Frame> {
    if refs == [] then [] else Flat(refs[..|refs| - 1]) + refs[|refs| - 1].chunk
  }

  predicate AllStored(store: set<seq<Frame>>, refs: seq<Segment>) {
    forall k :: 0 <= k < |refs| ==> refs[k].chunk in store
  }

  function Merged(frames: seq<Frame>): Segment
    requires frames != []
  {
    Segment(frames, frames[0].position, frames[|frames| - 1].position)
  }

  /** A domain whose chunks were merged into one more segment. */
  function Compacted(d: Domain, completeFeed: bool): Domain
    requires SortFrames(Flat(d.chunks)) != []
  {
    d.(segments := d.segments + [Merged(SortFrames(Flat(d.chunks)))], chunks := [],
       complete := d.complete || completeFeed)
  }

  /** The floor rises to `before`, or to the head when `before` is past it; it
      never falls. */
  function TrimmedTo(d: Domain, before: nat): (t: Domain)
    ensures t == d.(trimBefore := t.trimBefore)
    ensures t.trimBefore >= d.trimBefore && (t.trimBefore == d.trimBefore || t.trimBefore <= before)
    ensures d.trimBefore <= d.headSeq ==> t.trimBefore <= d.headSeq
    ensures before <= d.headSeq ==> t.trimBefore >= before
    ensures before > d.headSeq ==> t.trimBefore >= d.headSeq
  {
    var floor := if before < d.headSeq then before else d.headSeq;
    d.(trimBefore := if d.trimBefore > floor then d.trimBefore else floor)
  }

  /** Reads of frames at or above `from`, past the floor. */
  function Kept(frames: seq<Frame>, from: nat, floor: nat): seq<Frame> {
    if frames == [] then []
    else
      var f := frames[|frames| - 1];
      Kept(frames[..|frames| - 1], from, floor) + (if f.position >= from && f.position > floor then [f] else [])
  }

  /** The manifest of a v2 log, as maintenance loads and rewrites it. */
  class LogManifest {
    var headSeq: nat
    var chunks: seq<Segment>
    var segments: seq<Segment>
    var trimBefore: nat
    var complete: bool
    var index: Option<H.Root>
    var admitted: seq<Admission>

    constructor (d: Domain, admissions: seq<Admission>)
      ensures Value() == d && admitted == admissions
    {
      headSeq, chunks, segments, trimBefore, complete, index, admitted :=
        d.headSeq, d.chunks, d.segments, d.trimBefore, d.complete, d.index, admissions;
    }

    function Value(): Domain
      reads this
    {
      Domain(headSeq, chunks, segments, trimBefore, complete, index)
    }

    /** CompactPlan::prepare: fewer than two chunks is nothing to do; a missing
        chunk fails recovery; otherwise the frames move to one segment. */
    method Compact(store: set<seq<Frame>>, completeFeed: bool) returns (r: Result<nat, Error>)
      modifies this
      ensures |old(chunks)| < 2 ==> r == Err(NothingToDo)
      ensures |old(chunks)| >= 2 && !AllStored(store, old(chunks)) ==> r == Err(RecoveryFailed)
      ensures |old(chunks)| >= 2 && AllStored(store, old(chunks)) ==>
                (if Flat(old(chunks)) == [] then r == Err(Panic) else r == Ok(|old(chunks)|))
      ensures r.Err? ==> Value() == old(Value()) && admitted == old(admitted)
      ensures r.Ok? ==> Flat(old(chunks)) != [] && Value() == Compacted(old(Value()), completeFeed) && admitted == []
    {
      if |chunks| < 2 {
        return Err(NothingToDo);
      }
      var merged, frames: seq<Frame> := |chunks|, [];
      for i := 0 to |chunks|
        invariant frames == Flat(chunks[..i]) && AllStored(store, chunks[..i])
        invariant Value() == old(Value()) && admitted == old(admitted)
      {
        assert chunks[..i + 1][..i] == chunks[..i];
        if chunks[i].chunk !in store {
          return Err(RecoveryFailed);
        }
        frames := frames + chunks[i].chunk;
      }
      assert chunks[..|chunks|] == chunks;
      frames := SortFrames(frames);
      if frames == [] {
        return Err(Panic);
      }
      segments := segments + [Merged(frames)];
      chunks := [];
      admitted := [];
      complete := complete || completeFeed;
      return Ok(merged);
    }

    /** TrimPlan::prepare: a complete feed refuses; the floor only rises, and never
        past the head. */
    method Trim(before: nat) returns (r: Result<nat, Error>)
      modifies this
      ensures old(complete) ==> r == Err(Rejected) && Value() == old(Value()) && admitted == old(admitted)
      ensures !old(complete) ==> Value() == TrimmedTo(old(Value()), before) && r == Ok(trimBefore) && admitted == []
      ensures !old(complete) ==>
                trimBefore >= old(trimBefore) && (trimBefore == old(trimBefore) || trimBefore <= before)
      ensures !old(complete) && old(trimBefore) <= headSeq ==> trimBefore <= headSeq
      ensures !old(complete) && before <= headSeq ==> trimBefore >= before
      ensures !old(complete) && before > headSeq ==> trimBefore >= headSeq
    {
      if complete {
        return Err(Rejected);
      }
      var floor := if before < headSeq then before else headSeq;
      trimBefore := if trimBefore > floor then trimBefore else floor;
      admitted := [];
      return Ok(trimBefore);
    }

    /** LogStore::read: segments then chunks, whole chunks below `from` skipped, the
        rest filtered and sorted. */
    method Read(store: set<seq<Frame>>, from: nat) returns (r: Result<seq<Frame>, Error>)
      ensures trimBefore > 0 && from <= trimBefore ==> r == Err(Trimmed(trimBefore + 1))
      ensures !(trimBefore > 0 && from <= trimBefore) && AllStored(store, Above(segments + chunks, from)) ==>
                r == Ok(SortFrames(Kept(Flat(Above(segments + chunks, from)), from, trimBefore)))
      ensures !(trimBefore > 0 && from <= trimBefore) && !AllStored(store, Above(segments + chunks, from)) ==>
              r == Err(NotFound)
    {
      hide Flat, Kept, Above, SortFrames;
      if trimBefore > 0 && from <= trimBefore {
        return Err(Trimmed(trimBefore + 1));
      }
      var out: seq<Frame> := [];
      var all := segments + chunks;
      assert all[..0] == [];
      NothingKept(from, trimBefore);
      NothingAbove(from);
      for i := 0 to |all|
        invariant out == Kept(Flat(Above(all[..i], from)), from, trimBefore)
        invariant AllStored(store, Above(all[..i], from))
      {
        assert all[..i + 1][..i] == all[..i];
        AboveSnoc(all[..i], all[i], from);
        assert all[..i] + [all[i]] == all[..i + 1];
        if all[i].last >= from {
          if all[i].chunk !in store {
            AboveHas(all, i, from);
            return Err(NotFound);
          }
          FlatSnoc(Above(all[..i], from), all[i]);
          KeptJoin(Flat(Above(all[..i], from)), all[i].chunk, from, trimBefore);
          out := out + Kept(all[i].chunk, from, trimBefore);
        } else {
          assert Above(all[..i + 1], from) == Above(all[..i], from);
        }
      }
      assert all[..|all|] == all;
      return Ok(SortFrames(out));
    }
  }

  function Above(refs: seq<Segment>, from: nat): seq<Segment> {
    if refs == [] then []
    else
      var last := refs[|refs| - 1];
      Above(refs[..|refs| - 1], from) + (if last.last >= from then [last] else [])
  }

  lemma NothingKept(from: nat, floor: nat)
    ensures Kept(Flat(Above([], from)), from, floor) == []
  {
  }

  lemma NothingAbove(from: nat)
    ensures Above([], from) == []
  {
  }

  lemma {:induction false} AboveHas(refs: seq<Segment>, i: nat, from: nat)
    requires i < |refs| && refs[i].last >= from
    ensures refs[i] in Above(refs, from)
  {
    if i < |refs| - 1 {
      AboveHas(refs[..|refs| - 1], i, from);
    }
  }

  lemma AboveSnoc(refs: seq<Segment>, last: Segment, from: nat)
    ensures Above(refs + [last], from) == Above(refs, from) + (if last.last >= from then [last] else [])
  {
    assert (refs + [last])[..|refs|] == refs;
  }

  lemma FlatSnoc(refs: seq<Segment>, last: Segment)
    ensures Flat(refs + [last]) == Flat(refs) + last.chunk
  {
    assert (refs + [last])[..|refs|] == refs;
  }

  lemma KeptSnoc(s: seq<Frame>, f: Frame, from: nat, floor: nat)
    ensures Kept(s + [f], from, floor)
            == Kept(s, from, floor) + (if f.position >= from && f.position > floor then [f] else [])
  {
    assert (s + [f])[..|s|] == s;
  }

  lemma {:induction false} KeptJoin(a: seq<Frame>, b: seq<Frame>, from: nat, floor: nat)
    ensures Kept(a + b, from, floor) == Kept(a, from, floor) + Kept(b, from, floor)
  {
    hide Kept;
    if b == [] {
      assert a + b == a;
      NothingKept(from, floor);
    } else {
      var rest, f := b[..|b| - 1], b[|b| - 1];
      KeptJoin(a, rest, from, floor);
      KeptSnoc(a + rest, f, from, floor);
      KeptSnoc(rest, f, from, floor);
      assert a + b == a + rest + [f] && b == rest + [f];
    }
  }

  // ---- grouping submissions -----------------------------------------------------------------------

  datatype Submission = Submission(identity: Identity, payloads: seq<seq<Byte>>)

  datatype Verdict = Refused | Conflicts | Queued

  predicate ValidUnder(sub: Submission, i: Identity) {
    sub.identity == i && PayloadsOk(sub.payloads)
  }

  /** Where the first valid submission under an identity stands, if there is one. */
  function FirstAt(batch: seq<Submission>, i: Identity): (n: nat)
    ensures n <= |batch|
  {
    if batch == [] then 0
    else
      var n := FirstAt(batch[..|batch| - 1], i);
      if n < |batch| - 1 || ValidUnder(batch[|batch| - 1], i) then n else |batch|
  }

  /** It is valid, and no earlier one is. */
  lemma {:induction false} FirstAtIsFirst(batch: seq<Submission>, i: Identity, k: nat)
    requires k <= FirstAt(batch, i) && k < |batch|
    ensures ValidUnder(batch[k], i) <==> k == FirstAt(batch, i)
  {
    if k < |batch| - 1 {
      FirstAtIsFirst(batch[..|batch| - 1], i, k);
    }
  }

  /** Its payloads. */
  function FirstValid(batch: seq<Submission>, i: Identity): Option<seq<seq<Byte>>> {
    var n := FirstAt(batch, i);
    if n < |batch| then Some(batch[n].payloads) else None
  }

  lemma FirstAtSnoc(batch: seq<Submission>, sub: Submission, i: Identity)
    ensures FirstAt(batch + [sub], i)
            == if FirstAt(batch, i) < |batch| || ValidUnder(sub, i) then FirstAt(batch, i) else |batch| + 1
    ensures FirstValid(batch + [sub], i)
            == if FirstValid(batch, i).None? && ValidUnder(sub, i) then Some(sub.payloads) else FirstValid(batch, i)
  {
    assert (batch + [sub])[..|batch|] == batch;
  }

  /** The submission at j is the first valid one under its identity. */
  predicate IsFirst(batch: seq<Submission>, j: nat, i: Identity)
    requires j < |batch|
  {
    ValidUnder(batch[j], i) && forall m :: 0 <= m < j ==> !ValidUnder(batch[m], i)
  }

  function VerdictOn(batch: seq<Submission>, sub: Submission): Verdict {
    if !PayloadsOk(sub.payloads) then Refused
    else if FirstValid(batch, sub.identity) == Some(sub.payloads) then Queued else Conflicts
  }

  /** The items of a batch so far: each identity, in order of its first valid
      submission. */
  ghost predicate InOrder(batch: seq<Submission>, order: seq<Identity>) {
    && (forall j, k :: 0 <= j < k < |order| ==> FirstAt(batch, order[j]) < FirstAt(batch, order[k]))
    && (forall k :: 0 <= k < |order| ==> FirstAt(batch, order[k]) < |batch|)
  }

  lemma InOrderSnoc(batch: seq<Submission>, sub: Submission, order: seq<Identity>)
    requires InOrder(batch, order)
    ensures InOrder(batch + [sub], order)
    ensures ValidUnder(sub, sub.identity) && FirstAt(batch, sub.identity) == |batch| ==>
            InOrder(batch + [sub], order + [sub.identity])
  {
    hide FirstAt, ValidUnder;
    var batch' := batch + [sub];
    forall k | 0 <= k < |order| ensures FirstAt(batch', order[k]) == FirstAt(batch, order[k]) {
      FirstAtSnoc(batch, sub, order[k]);
    }
    if ValidUnder(sub, sub.identity) && FirstAt(batch, sub.identity) == |batch| {
      FirstAtSnoc(batch, sub, sub.identity);
      OrderSnoc(batch', order, sub.identity);
    }
  }

  lemma OrderSnoc(batch: seq<Submission>, order: seq<Identity>, last: Identity)
    requires InOrder(batch, order) && FirstAt(batch, last) < |batch|
    requires forall k :: 0 <= k < |order| ==> FirstAt(batch, order[k]) < FirstAt(batch, last)
    ensures InOrder(batch, order + [last])
  {
    hide FirstAt;
    var order' := order + [last];
    forall k | 0 <= k < |order'| ensures FirstAt(batch, order'[k]) < |batch| {
      assert k < |order| ==> order'[k] == order[k];
    }
    forall j, k | 0 <= j < k < |order'| ensures FirstAt(batch, order'[j]) < FirstAt(batch, order'[k]) {
      assert order'[j] == order[j] && (k < |order| ==> order'[k] == order[k]);
    }
  }

  /** The payloads of each identity so far. */
  ghost predicate Collected(batch: seq<Submission>, unique: map<Identity, seq<seq<Byte>>>) {
    forall i :: FirstValid(batch, i) == if i in unique then Some(unique[i]) else None
  }

  lemma CollectedSnoc(batch: seq<Submission>, sub: Submission, unique: map<Identity, seq<seq<Byte>>>)
    requires Collected(batch, unique)
    ensures Collected(batch + [sub], if PayloadsOk(sub.payloads) && sub.identity !in unique
                                     then unique[sub.identity := sub.payloads] else unique)
  {
    hide FirstAt, FirstValid, PayloadsOk;
    var unique' := if PayloadsOk(sub.payloads) && sub.identity !in unique
                   then unique[sub.identity := sub.payloads] else unique;
    forall i ensures FirstValid(batch + [sub], i) == if i in unique' then Some(unique'[i]) else None {
      FirstAtSnoc(batch, sub, i);
    }
  }

  lemma NoneGathered()
    ensures InOrder([], []) && Collected([], map[])
  {
  }

  /** Submissions under a gathered identity share its item or conflict with it. */
  predicate Judged(sub: Submission, unique: map<Identity, seq<seq<Byte>>>, v: Verdict) {
    if !PayloadsOk(sub.payloads) then v == Refused
    else sub.identity in unique && v == if unique[sub.identity] == sub.payloads then Queued else Conflicts
  }

  /** The first part of commit_group: invalid submissions are refused, the first
      valid one under an identity becomes its item, and later ones either share it
      or conflict with it. Items stand in order of those first submissions. */
  method GatherBatch(batch: seq<Submission>)
    returns (order: seq<Identity>, unique: map<Identity, seq<seq<Byte>>>, verdicts: seq<Verdict>)
    ensures |verdicts| == |batch|
    ensures forall k :: 0 <= k < |batch| ==> verdicts[k] == VerdictOn(batch, batch[k])
    ensures forall k :: 0 <= k < |batch| ==> (verdicts[k] == Refused <==> !PayloadsOk(batch[k].payloads))
    ensures forall j, k :: 0 <= j < |batch| && 0 <= k < |batch| && PayloadsOk(batch[k].payloads)
                           && IsFirst(batch, j, batch[k].identity) ==>
            verdicts[k] == if batch[k].payloads == batch[j].payloads then Queued else Conflicts
    ensures forall j, k :: 0 <= j < k < |order| ==>
            order[j] != order[k] && FirstAt(batch, order[j]) < FirstAt(batch, order[k])
    ensures forall i :: i in unique <==> i in order
    ensures forall i :: i in unique <==> FirstValid(batch, i).Some?
    ensures forall i :: i in unique ==> FirstValid(batch, i) == Some(unique[i])
  {
    hide PayloadsOk, FirstAt, FirstValid, Collected, InOrder;
    order, unique, verdicts := [], map[], [];
    NoneGathered();
    for n := 0 to |batch|
      invariant InOrder(batch[..n], order) && Collected(batch[..n], unique)
      invariant forall i :: i in unique <==> i in order
      invariant |verdicts| == n && forall k :: 0 <= k < n ==> Judged(batch[k], unique, verdicts[k])
    {
      var sub := batch[n];
      assert batch[..n + 1] == batch[..n] + [sub];
      InOrderSnoc(batch[..n], sub, order);
      CollectedSnoc(batch[..n], sub, unique);
      CollectedIsFirst(batch[..n], unique, sub.identity);
      var valid := CheckPayloads(sub.payloads);
      if !valid {
        verdicts := verdicts + [Refused];
      } else if sub.identity in unique {
        verdicts := verdicts + [if unique[sub.identity] != sub.payloads then Conflicts else Queued];
      } else {
        order := order + [sub.identity];
        unique := unique[sub.identity := sub.payloads];
        verdicts := verdicts + [Queued];
      }
    }
    assert batch[..|batch|] == batch;
    GatheredAll(batch, order, unique, verdicts);
    FirstJudges(batch);
  }

  /** The first valid submission under an identity is what the others under it are
      judged by. */
  lemma FirstJudges(batch: seq<Submission>)
    ensures forall k :: 0 <= k < |batch| ==>
            (VerdictOn(batch, batch[k]) == Refused <==> !PayloadsOk(batch[k].payloads))
    ensures forall j, k :: 0 <= j < |batch| && 0 <= k < |batch| && PayloadsOk(batch[k].payloads)
                           && IsFirst(batch, j, batch[k].identity) ==>
            VerdictOn(batch, batch[k]) == if batch[k].payloads == batch[j].payloads then Queued else Conflicts
  {
    hide PayloadsOk, FirstAt;
    forall j, k | 0 <= j < |batch| && 0 <= k < |batch| && IsFirst(batch, j, batch[k].identity)
      ensures FirstAt(batch, batch[k].identity) == j
    {
      var n := FirstAt(batch, batch[k].identity);
      FirstAtIsFirst(batch, batch[k].identity, if n < j then n else j);
    }
  }

  lemma CollectedIsFirst(batch: seq<Submission>, unique: map<Identity, seq<seq<Byte>>>, i: Identity)
    requires Collected(batch, unique)
    ensures i in unique <==> FirstAt(batch, i) < |batch|
  {
    hide FirstAt;
  }

  lemma GatheredAll(batch: seq<Submission>, order: seq<Identity>, unique: map<Identity, seq<seq<Byte>>>,
                    verdicts: seq<Verdict>)
    requires InOrder(batch, order) && Collected(batch, unique)
    requires |verdicts| == |batch| && forall k :: 0 <= k < |batch| ==> Judged(batch[k], unique, verdicts[k])
    ensures forall k :: 0 <= k < |batch| ==> verdicts[k] == VerdictOn(batch, batch[k])
    ensures forall j, k :: 0 <= j < k < |order| ==>
            order[j] != order[k] && FirstAt(batch, order[j]) < FirstAt(batch, order[k])
    ensures forall i :: i in unique <==> FirstValid(batch, i).Some?
    ensures forall i :: i in unique ==> FirstValid(batch, i) == Some(unique[i])
  {
    hide FirstAt, FirstValid, PayloadsOk;
  }
}
