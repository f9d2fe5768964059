/** A reachable run in which a session reports an integrity failure although its
    feed is intact: two keys share one path, and the second is appended. */
module FeedWitness {
  import opened Bits
  import opened Wrappers
  import opened Backend
  import opened Heads
  import H = Hamt
  import C = Catalog
  import CP = CatalogProof
  import opened Feed
  import opened FeedInv
  import opened FeedSteps
  import opened FeedTheorems
  import opened FeedPromises

  ghost predicate Reaches(name: string, s: State) {
    exists trace: seq<State>, labels: seq<Label> :: Behavior(name, trace, labels) && trace[|labels|] == s
  }

  lemma ReachStep(name: string, s: State, s': State, l: Label)
    requires Reaches(name, s) && Next(name, s, s', l)
    ensures Reaches(name, s')
  {
    hide Next;
    var trace: seq<State>, labels: seq<Label> :| Behavior(name, trace, labels) && trace[|labels|] == s;
    var trace', labels' := trace + [s'], labels + [l];
    forall k | 0 <= k < |labels'| ensures Next(name, trace'[k], trace'[k + 1], labels'[k]) {
      if k < |labels| {
        assert Next(name, trace[k], trace[k + 1], labels[k]);
        assert trace'[k] == trace[k] && trace'[k + 1] == trace[k + 1] && labels'[k] == labels[k];
      } else {
        assert trace'[k] == s && trace'[k + 1] == s' && labels'[k] == l;
      }
    }
    assert Behavior(name, trace', labels') && trace'[|labels'|] == s';
  }

  lemma ReachedInv(name: string, s: State)
    requires Reaches(name, s)
    ensures Inv(s, name)
  {
    hide Next, Inv;
    var trace: seq<State>, labels: seq<Label> :| Behavior(name, trace, labels) && trace[|labels|] == s;
    hide Behavior;
    InvAlways(name, trace, labels, |labels|);
  }

  const WRITER := "w"
  const TERM: Lease := Lease(WRITER, 10)

  /** The writer of the first claim holds the ref. */
  predicate Held(s: State, name: string) {
    var head := HeadOf(s, name);
    head.version.Some? && head.value.lease == Some(TERM) && head.value.epoch == 1 && head.value.generation < 10
  }

  lemma Claimed(name: string) returns (s: State)
    ensures Reaches(name, s) && Held(s, name) && s.procs == map[] && LogOf(s, name) == []
    ensures HeadOf(s, name).value.generation == 1
  {
    var s0 := State(Stores({}, {}, {}, {}), map[], map[]);
    assert Behavior(name, [s0], []) && [s0][0] == s0;
    var v: RefValue := EmptyRef(name);
    var next := v.(generation := 1, epoch := 1, lease := Some(TERM), updatedAt := 0);
    var c := PlainCommit(v, 0, next);
    var held := next.(headCommit := Some(Digest(c)));
    s := State(Stores({Digest(c)}, {}, {}, {}), map[name := Cell(held, 1)], map[]);
    assert HeadOf(s0, name) == Snapshot(v, None);
    assert ClaimNext(v, WRITER, 10, false, 0) == Ok(next);
    assert s.st == s0.st.(objects := s0.st.objects + {Digest(c)});
    assert CommitsPlain(name, s0, s, 0, Ok(next));
    ReachStep(name, s0, s, Claim(0, WRITER, 10, false, 0));
    ClaimOnlyLog(c);
  }

  lemma ClaimOnlyLog(c: Commit)
    requires c.Plain? && c.header.parent == None
    ensures Log(History(Some(Digest(c)))) == []
  {
    assert History(None) == [];
    assert History(Some(Digest(c))) == [Digest(c)];
    assert Log([Digest(c)]) == Log([Digest(c)][..0]);
  }

  predicate Payload(b: seq<Byte>) {
    b != [] && |b| <= MAX_CHUNK_RAW_BYTES
  }

  /** One step of caller x that leaves stores and ref alone. */
  lemma Looks(name: string, s: State, x: nat, p: Proc, pc': Pc) returns (s': State)
    requires Reaches(name, s) && x in s.procs && s.procs[x] == p && !Terminal(p.pc)
    requires Move(name, s, p, s.(procs := s.procs[x := p.(pc := pc')]), pc', 0)
    ensures Reaches(name, s') && s' == s.(procs := s.procs[x := p.(pc := pc')])
  {
    hide Move;
    s' := s.(procs := s.procs[x := p.(pc := pc')]);
    assert Runs(name, s, s', x, 0);
    ReachStep(name, s, s', Run(x, 0));
  }

  /** A key the log does not hold lets its caller go on. */
  lemma GoesOn(s: State, name: string, p: Proc, next: Pc)
    requires Inv(s, name) && forall e :: e in LogOf(s, name) ==> e.key != p.key
    ensures AfterLookup(s.st, name, HeadOf(s, name), p, next) == next
  {
    hide GoodValue, Log, LookupCommitted;
    LookupReadsLog(s.st, name, HeadOf(s, name).value, p.key, p.payload);
  }

  lemma Starts(name: string, s: State, x: nat, key: H.Key, b: seq<Byte>) returns (s': State)
    requires Reaches(name, s) && x !in s.procs && Payload(b)
    ensures Reaches(name, s') && s' == s.(procs := s.procs[x := Proc(WRITER, key, b, Reading)])
  {
    s' := s.(procs := s.procs[x := Proc(WRITER, key, b, Reading)]);
    ReachStep(name, s, s', Start(x, WRITER, key, b));
  }

  /** A new session gets ready to append under a key the log does not hold. */
  lemma GetsReady(name: string, s: State, x: nat, key: H.Key, b: seq<Byte>) returns (s': State)
    requires Reaches(name, s) && Held(s, name) && x !in s.procs && Payload(b)
    requires forall e :: e in LogOf(s, name) ==> e.key != key
    ensures Reaches(name, s') && s'.st == s.st && s'.ref == s.ref
    ensures s'.procs == s.procs[x := Proc(WRITER, key, b, Ready(HeadOf(s, name), 1))]
  {
    hide Reaches, Inv, Log, Move;
    var p := Proc(WRITER, key, b, Reading);
    var s1 := Starts(name, s, x, key, b);
    ReachedInv(name, s1);
    GoesOn(s1, name, p, Acquiring);
    ReadsOn(name, s1, x, p);
    var s2 := Looks(name, s1, x, p, Acquiring);
    var q := p.(pc := Acquiring);
    ReachedInv(name, s2);
    GoesOn(s2, name, q, Ready(HeadOf(s, name), 1));
    AcquiresOn(name, s2, x, q);
    s' := Looks(name, s2, x, q, Ready(HeadOf(s, name), 1));
  }

  lemma ReadsOn(name: string, s: State, x: nat, p: Proc)
    requires p.pc == Reading && AfterLookup(s.st, name, HeadOf(s, name), p, Acquiring) == Acquiring
    ensures Move(name, s, p, s.(procs := s.procs[x := p.(pc := Acquiring)]), Acquiring, 0)
  {
    hide AfterLookup;
  }

  lemma AcquiresOn(name: string, s: State, x: nat, p: Proc)
    requires p.pc == Acquiring && p.instance == WRITER && Held(s, name)
    requires AfterLookup(s.st, name, HeadOf(s, name), p, Ready(HeadOf(s, name), 1)) == Ready(HeadOf(s, name), 1)
    ensures var pc' := Ready(HeadOf(s, name), 1);
            Move(name, s, p, s.(procs := s.procs[x := p.(pc := pc')]), pc', 0)
  {
    hide AfterLookup;
    assert Checked(name, s, p, Ready(HeadOf(s, name), 1), 0, 1);
  }

  /** The first append: it is prepared and lands. */
  lemma Appends(name: string, s: State, x: nat, p: Proc) returns (s': State)
    requires Reaches(name, s) && Held(s, name) && HeadOf(s, name).value.generation == 1 && LogOf(s, name) == []
    requires x in s.procs && s.procs[x] == p && p.pc == Ready(HeadOf(s, name), 1) && p.instance == WRITER
    ensures Reaches(name, s') && Held(s', name) && s'.procs.Keys == s.procs.Keys
    ensures |LogOf(s', name)| == 1 && LogOf(s', name)[0].key == p.key
  {
    hide Reaches, Inv, Log, Prepare, Move, Appended, GoodValue;
    ReachedInv(name, s);
    var a := PreparesOk(name, s, x, p);
    var prepared, q := a.result.value, p.(pc := Swapping(HeadOf(s, name), 1, a.result.value));
    var s1 := s.(st := a.st, procs := s.procs[x := q]);
    StepsTo(name, s, s1, x, p, q.pc);
    ReachedInv(name, s1);
    HeadIsGood(s1, name);
    s' := Landed(s1, name, x, q);
    Lands(name, s1, s', x, q);
    StepsTo(name, s1, s', x, q, Done(prepared.receipt));
    LandedLog(name, s1, s', x, q);
  }

  lemma HeadIsGood(s: State, name: string)
    requires Inv(s, name)
    ensures GoodValue(s.st, name, HeadOf(s, name).value)
  {
    hide GoodValue, ProcOk;
  }

  /** The state after a swap from the live head. */
  function Landed(s: State, name: string, x: nat, p: Proc): State
    requires p.pc.Swapping? && HeadOf(s, name).version.Some?
  {
    s.(ref := s.ref[name := Cell(p.pc.prepared.next, HeadOf(s, name).version.value + 1)],
       procs := s.procs[x := p.(pc := Done(p.pc.prepared.receipt))])
  }

  lemma StepsTo(name: string, s: State, s': State, x: nat, p: Proc, pc': Pc)
    requires Reaches(name, s) && x in s.procs && s.procs[x] == p && !Terminal(p.pc)
    requires s'.procs == s.procs[x := p.(pc := pc')] && Move(name, s, p, s', pc', 0)
    ensures Reaches(name, s')
  {
    hide Move;
    assert Runs(name, s, s', x, 0);
    ReachStep(name, s, s', Run(x, 0));
  }

  lemma PreparesOk(name: string, s: State, x: nat, p: Proc) returns (a: Attempt)
    requires Inv(s, name) && Held(s, name) && LogOf(s, name) == []
    requires x in s.procs && s.procs[x] == p && p.pc == Ready(HeadOf(s, name), 1) && p.instance == WRITER
    ensures a.result.Ok? && Appended(a.st, name, HeadOf(s, name).value, AppendOf(p, 1), a.result.value)
    ensures var pc' := Swapping(HeadOf(s, name), 1, a.result.value);
            Move(name, s, p, s.(st := a.st, procs := s.procs[x := p.(pc := pc')]), pc', 0)
  {
    hide GoodValue, Log, Prepare, CP.Size, Appended;
    assert ProcOk(s, name, p);
    a := Prepare(s.st, name, HeadOf(s, name).value, AppendOf(p, 1), 0);
    PrepareExact(s.st, name, HeadOf(s, name).value, AppendOf(p, 1), 0);
    SomeCapacity();
  }

  lemma SomeCapacity()
    ensures CP.Size(C.MAX_HEIGHT) > 0
  {
  }

  lemma Lands(name: string, s: State, s': State, x: nat, p: Proc)
    requires Held(s, name) && p.pc.Swapping? && p.pc.snap == HeadOf(s, name) && p.pc.epoch == 1 && p.instance == WRITER
    requires Appended(s.st, name, HeadOf(s, name).value, AppendOf(p, 1), p.pc.prepared)
    requires s' == Landed(s, name, x, p)
    ensures Move(name, s, p, s', Done(p.pc.prepared.receipt), 0)
  {
    hide GoodValue;
  }

  lemma LandedLog(name: string, s: State, s': State, x: nat, p: Proc)
    requires Held(s, name) && p.pc.Swapping? && LogOf(s, name) == [] && HeadOf(s, name).value.generation == 1
    requires GoodValue(s.st, name, HeadOf(s, name).value)
    requires Appended(s.st, name, HeadOf(s, name).value, AppendOf(p, 1), p.pc.prepared)
    requires s' == Landed(s, name, x, p)
    ensures Held(s', name) && |LogOf(s', name)| == 1 && LogOf(s', name)[0].key == p.key
  {
    hide GoodChain, Log;
    assert HeadOf(s', name).value == p.pc.prepared.next;
    assert Chain(s', name) == Chain(s, name) + [Digest(p.pc.prepared.commit)];
    SnocLog(Chain(s, name), Digest(p.pc.prepared.commit));
  }

  /** Two keys of one path: once the first is appended, the second is refused, and
      its session reports an integrity failure, while the ref it read binds and
      validates. */
  lemma TakenPathIsReported(name: string, key: H.Key, other: H.Key, b: seq<Byte>)
    requires key != other && key.path == other.path && Payload(b)
    ensures exists s: State, x: nat ::
              && Reaches(name, s) && x in s.procs && s.procs[x].pc.Ready? && s.procs[x].key == other
              && Publication(s.st, name, s.procs[x].pc.snap.value).Ok?
              && var r := AppendRefusal(s.st, name, s.procs[x].pc.snap.value,
                                        AppendOf(s.procs[x], s.procs[x].pc.epoch), 0, 0);
                 r.Some? && ReportedAsIntegrity(r.value)
  {
    hide Reaches, Inv, Log, AppendRefusal, ReportedAsIntegrity, Publication;
    var s := Claimed(name);
    s := GetsReady(name, s, 0, key, b);
    s := Appends(name, s, 0, s.procs[0]);
    assert forall e :: e in LogOf(s, name) ==> e == LogOf(s, name)[0];
    s := GetsReady(name, s, 1, other, b);
    ReachedInv(name, s);
    RefusalReported(s, name, 1, 0, 0);
    ReadyPublishes(s, name, 1);
    assert LogOf(s, name)[0] in LogOf(s, name);
  }

  lemma ReadyPublishes(s: State, name: string, x: nat)
    requires Inv(s, name) && x in s.procs && s.procs[x].pc.Ready?
    ensures Publication(s.st, name, s.procs[x].pc.snap.value).Ok?
  {
    hide GoodValue, Log, Publication;
    assert ProcOk(s, name, s.procs[x]);
    PublicationIsLatest(s.st, name, s.procs[x].pc.snap.value);
  }
}
