/** The buffers that request hashes are taken over. Strings are their UTF-8 bytes;
    lengths are 64-bit words. */
module Material {
  import opened Words
  import opened Bits
  import opened Sorting

  type Bytes = seq<Byte>

  datatype Precondition = Precondition(name: Bytes, value: Bytes)

  datatype Request = Request(kind: Bytes, preconditions: seq<Precondition>, payload: seq<Bytes>)

  // ---- the order of names -----------------------------------------------------------

  /** Byte-wise lexicographic order. */
  predicate Leq(a: Bytes, b: Bytes) {
    a == [] || (b != [] && (a[0] < b[0] || (a[0] == b[0] && Leq(a[1..], b[1..]))))
  }

  lemma {:induction false} LeqTotal(a: Bytes, b: Bytes)
    ensures Leq(a, b) || Leq(b, a)
  {
    if a != [] && b != [] {
      LeqTotal(a[1..], b[1..]);
    }
  }

  lemma {:induction false} LeqAntisymmetric(a: Bytes, b: Bytes)
    requires Leq(a, b) && Leq(b, a)
    ensures a == b
  {
    if a != [] {
      LeqAntisymmetric(a[1..], b[1..]);
      assert a == [a[0]] + a[1..] && b == [b[0]] + b[1..];
    }
  }

  lemma {:induction false} LeqTransitive(a: Bytes, b: Bytes, c: Bytes)
    requires Leq(a, b) && Leq(b, c)
    ensures Leq(a, c)
  {
    if a != [] && a[0] == b[0] && b[0] == c[0] {
      LeqTransitive(a[1..], b[1..], c[1..]);
    }
  }

  /** b starts with a, or the first byte in which they differ is smaller in a. */
  predicate Before(a: Bytes, b: Bytes) {
    a <= b || exists k :: 0 <= k < |a| && k < |b| && a[..k] == b[..k] && a[k] < b[k]
  }

  lemma {:induction false} LeqExactly(a: Bytes, b: Bytes)
    ensures Leq(a, b) <==> Before(a, b)
  {
    if a != [] && b != [] && a[0] == b[0] {
      var s, t := a[1..], b[1..];
      assert a == [a[0]] + s && b == [a[0]] + t;
      LeqExactly(s, t);
      BeforeCons(a[0], s, t);
    } else if a != [] && b != [] {
      assert a[..0] == b[..0];
      assert forall k :: 1 <= k < |a| && k < |b| ==> a[..k][0] != b[..k][0];
    }
  }

  lemma BeforeCons(x: Byte, s: Bytes, t: Bytes)
    ensures Before([x] + s, [x] + t) <==> Before(s, t)
  {
    var a, b := [x] + s, [x] + t;
    assert a[1..] == s && b[1..] == t;
    forall k | 0 <= k < |s| && k < |t| ensures s[..k] == t[..k] <==> a[..k + 1] == b[..k + 1] {
      assert a[..k + 1] == [x] + s[..k] && b[..k + 1] == [x] + t[..k];
      assert a[..k + 1][1..] == s[..k] && b[..k + 1][1..] == t[..k];
    }
    if Before(s, t) && !(s <= t) {
      var k :| 0 <= k < |s| && k < |t| && s[..k] == t[..k] && s[k] < t[k];
      assert a[..k + 1] == b[..k + 1] && a[k + 1] < b[k + 1];
    }
    if Before(a, b) && !(a <= b) {
      var k :| 0 <= k < |a| && k < |b| && a[..k] == b[..k] && a[k] < b[k];
      assert s[..k - 1] == t[..k - 1] && s[k - 1] < t[k - 1];
    }
  }

  // ---- the stable sort by name -------------------------------------------------------

  predicate ByName(a: Precondition, b: Precondition) {
    Leq(a.name, b.name)
  }

  lemma ByNameIsTotal()
    ensures TotalOrder(ByName)
  {
    hide Leq;
    forall a: Precondition, b: Precondition ensures ByName(a, b) || ByName(b, a) {
      LeqTotal(a.name, b.name);
    }
    forall a: Precondition, b: Precondition, c: Precondition | ByName(a, b) && ByName(b, c) ensures ByName(a, c) {
      LeqTransitive(a.name, b.name, c.name);
    }
  }

  function SortNames(s: seq<Precondition>): (r: seq<Precondition>)
    ensures |r| == |s|
  {
    Sort(s, ByName)
  }

  predicate InOrder(s: seq<Precondition>) {
    Sorted(s, ByName)
  }

  function Called(name: Bytes): Precondition -> bool {
    (p: Precondition) => p.name == name
  }

  /** The entries of one name, in their order. */
  function Named(s: seq<Precondition>, name: Bytes): seq<Precondition> {
    Filter(s, Called(name))
  }

  lemma NamedSnoc(s: seq<Precondition>, p: Precondition, name: Bytes)
    ensures Named(s + [p], name) == Named(s, name) + (if p.name == name then [p] else [])
  {
    FilterSnoc(s, p, Called(name));
  }

  lemma LeqSelf(a: Bytes)
    ensures Leq(a, a)
  {
    LeqTotal(a, a);
  }

  /** Sorting orders the names and keeps the entries of each name in their order:
      it is the stable sort. */
  lemma SortIsStable(s: seq<Precondition>, name: Bytes)
    ensures InOrder(SortNames(s)) && Named(SortNames(s), name) == Named(s, name)
  {
    hide Leq, Sort, Filter;
    ByNameIsTotal();
    Sorting.SortSorts(s, ByName);
    LeqSelf(name);
    Sorting.SortIsStable(s, ByName, Called(name));
  }

  lemma {:induction false} NamedHas(s: seq<Precondition>, p: Precondition)
    ensures p in Named(s, p.name) <==> p in s
  {
    if s != [] {
      NamedHas(s[..|s| - 1], p);
      assert s == s[..|s| - 1] + [s[|s| - 1]];
    }
  }

  /** Sorted lists that agree name by name are equal. */
  lemma {:induction false} SortedAgree(s: seq<Precondition>, t: seq<Precondition>)
    requires InOrder(s) && InOrder(t) && forall name :: Named(s, name) == Named(t, name)
    ensures s == t
    decreases |s|
  {
    hide Leq, Named;
    if s == [] {
      if t != [] {
        NamedHas(t, t[0]);
        NamedHas(s, t[0]);
      }
    } else {
      SameLast(s, t);
      var s', t' := s[..|s| - 1], t[..|t| - 1];
      assert s == s' + [s[|s| - 1]] && t == t' + [t[|t| - 1]];
      forall name ensures Named(s', name) == Named(t', name) {
        NamedSnoc(s', s[|s| - 1], name);
        NamedSnoc(t', t[|t| - 1], name);
        var x := if s[|s| - 1].name == name then [s[|s| - 1]] else [];
        Cancel(Named(s', name), Named(t', name), x);
      }
      SortedAgree(s', t');
    }
  }

  lemma SameLast(s: seq<Precondition>, t: seq<Precondition>)
    requires s != [] && InOrder(s) && InOrder(t) && forall name :: Named(s, name) == Named(t, name)
    ensures t != [] && s[|s| - 1] == t[|t| - 1]
  {
    hide Leq, Named;
    var p := s[|s| - 1];
    NamedHas(s, p);
    NamedHas(t, p);
    var q := t[|t| - 1];
    NamedHas(s, q);
    NamedHas(t, q);
    LastIsGreatest(s, q);
    LastIsGreatest(t, p);
    LeqAntisymmetric(p.name, q.name);
    NamedLast(s);
    NamedLast(t);
  }

  lemma NamedLast(s: seq<Precondition>)
    requires s != []
    ensures var p := s[|s| - 1]; var n := Named(s, p.name);
            n != [] && n[|n| - 1] == p
  {
  }

  lemma Cancel(a: seq<Precondition>, b: seq<Precondition>, x: seq<Precondition>)
    requires a + x == b + x
    ensures a == b
  {
    assert |a + x| == |b + x|;
    assert (a + x)[..|a|] == a && (b + x)[..|b|] == b;
  }

  lemma LastIsGreatest(s: seq<Precondition>, p: Precondition)
    requires p in s && InOrder(s)
    ensures Leq(p.name, s[|s| - 1].name)
  {
    hide Leq;
    var k :| 0 <= k < |s| && s[k] == p;
    LeqSelf(p.name);
  }

  /** Each name has the same values in the same order. */
  ghost predicate SameNamed(s: seq<Precondition>, t: seq<Precondition>) {
    forall name :: Named(s, name) == Named(t, name)
  }

  lemma SortedAlike(s: seq<Precondition>, t: seq<Precondition>)
    requires SortNames(s) == SortNames(t)
    ensures SameNamed(s, t)
  {
    hide InOrder, Named, SortNames;
    forall name ensures Named(s, name) == Named(t, name) {
      SortIsStable(s, name);
      SortIsStable(t, name);
    }
  }

  lemma NamedAlike(s: seq<Precondition>, t: seq<Precondition>)
    requires SameNamed(s, t)
    ensures SortNames(s) == SortNames(t)
  {
    hide InOrder, Named, SortNames;
    forall name ensures Named(SortNames(s), name) == Named(SortNames(t), name) {
      SortIsStable(s, name);
      SortIsStable(t, name);
    }
    SortIsStable(s, []);
    SortIsStable(t, []);
    SortedAgree(SortNames(s), SortNames(t));
  }

  // ---- buffers -------------------------------------------------------------------------------

  /** n, big end first, in k bytes. */
  function BigEndian(n: nat, k: nat): (b: Bytes)
    ensures |b| == k
  {
    if k == 0 then [] else BigEndian(n / 256, k - 1) + [n % 256]
  }

  function U64Bytes(n: nat): (b: Bytes)
    ensures |b| == 8
  {
    BigEndian(n, 8)
  }

  function Prefixed(b: Bytes): Bytes {
    U64Bytes(|b|) + b
  }

  function PrefixedAll(items: seq<Bytes>): Bytes {
    if items == [] then [] else PrefixedAll(items[..|items| - 1]) + Prefixed(items[|items| - 1])
  }

  /** Names and values, alternating. */
  function Pairs(pre: seq<Precondition>): (items: seq<Bytes>)
    ensures |items| == 2 * |pre|
  {
    if pre == [] then [] else Pairs(pre[..|pre| - 1]) + [pre[|pre| - 1].name, pre[|pre| - 1].value]
  }

  const DOMAIN: Bytes := [99, 111, 109, 98, 46, 109, 97, 116, 101, 114, 105, 97, 108, 47, 118, 49]

  function MaterialBuffer(tenant: Bytes, resource: Bytes, r: Request): Bytes {
    Prefixed(DOMAIN) + Prefixed(tenant) + Prefixed(r.kind) + Prefixed(resource)
    + U64Bytes(|r.preconditions|) + PrefixedAll(Pairs(SortNames(r.preconditions)))
    + U64Bytes(|r.payload|) + PrefixedAll(r.payload)
  }

  function DomainBuffer(domain: Bytes, fields: seq<Bytes>): Bytes {
    Prefixed(domain) + U64Bytes(|fields|) + PrefixedAll(fields)
  }

  lemma PairsSnoc(pre: seq<Precondition>, p: Precondition)
    ensures PrefixedAll(Pairs(pre + [p])) == PrefixedAll(Pairs(pre)) + Prefixed(p.name) + Prefixed(p.value)
  {
    hide Prefixed;
    assert (pre + [p])[..|pre|] == pre;
    var a := Pairs(pre) + [p.name];
    assert Pairs(pre + [p]) == a + [p.value];
    assert (a + [p.value])[..|a|] == a && a[..|Pairs(pre)|] == Pairs(pre);
  }

  /** put_bytes and the loops of Material::hash, over a growing buffer. */
  method FillMaterial(tenant: Bytes, resource: Bytes, r: Request) returns (buf: Bytes)
    ensures buf == MaterialBuffer(tenant, resource, r)
  {
    hide Prefixed, U64Bytes, SortNames, Pairs, PrefixedAll;
    buf := PutBytes([], DOMAIN);
    buf := PutBytes(buf, tenant);
    buf := PutBytes(buf, r.kind);
    buf := PutBytes(buf, resource);
    var pre := SortNames(r.preconditions);
    buf := buf + U64Bytes(|pre|);
    ghost var front := buf;
    NothingPrefixed();
    for i := 0 to |pre|
      invariant buf == front + PrefixedAll(Pairs(pre[..i]))
    {
      assert pre[..i + 1] == pre[..i] + [pre[i]];
      PairsSnoc(pre[..i], pre[i]);
      buf := PutBytes(buf, pre[i].name);
      buf := PutBytes(buf, pre[i].value);
    }
    assert pre[..|pre|] == pre;
    buf := buf + U64Bytes(|r.payload|);
    ghost var middle := buf;
    for i := 0 to |r.payload|
      invariant buf == middle + PrefixedAll(r.payload[..i])
    {
      AllSnoc(r.payload[..i], r.payload[i]);
      assert r.payload[..i + 1] == r.payload[..i] + [r.payload[i]];
      buf := PutBytes(buf, r.payload[i]);
    }
    assert r.payload[..|r.payload|] == r.payload;
  }

  method PutBytes(buf: Bytes, b: Bytes) returns (out: Bytes)
    ensures out == buf + Prefixed(b)
  {
    out := buf + U64Bytes(|b|);
    out := out + b;
  }

  lemma NothingPrefixed()
    ensures PrefixedAll(Pairs([])) == [] && PrefixedAll([]) == []
  {
  }

  lemma AllSnoc(items: seq<Bytes>, b: Bytes)
    ensures PrefixedAll(items + [b]) == PrefixedAll(items) + Prefixed(b)
  {
    assert (items + [b])[..|items|] == items;
  }

  // ---- buffers determine what was put in them ---------------------------------------------------

  /** n fits in k bytes. */
  predicate Fits(n: nat, k: nat) {
    if k == 0 then n == 0 else Fits(n / 256, k - 1)
  }

  lemma WordFits(n: nat)
    requires n <= U64_MAX
    ensures Fits(n, 8)
  {
    var a := n / 256;
    var b := a / 256;
    var c := b / 256;
    var d := c / 256;
    assert d < 0x1_0000_0000;
    var e := d / 256;
    var f := e / 256;
    var g := f / 256;
    assert g / 256 == 0;
    assert Fits(g / 256, 0);
    assert Fits(g, 1) && Fits(f, 2) && Fits(e, 3) && Fits(d, 4);
    assert Fits(c, 5) && Fits(b, 6) && Fits(a, 7);
  }

  /** The number that bytes spell, the most significant first. */
  function Number(b: Bytes): nat {
    if b == [] then 0 else 256 * Number(b[..|b| - 1]) + b[|b| - 1]
  }

  /** Its bytes spell the number. */
  lemma {:induction false} BigEndianSpells(n: nat, k: nat)
    requires Fits(n, k)
    ensures Number(BigEndian(n, k)) == n
  {
    if k > 0 {
      var high := BigEndian(n / 256, k - 1);
      assert (high + [n % 256])[..k - 1] == high;
      BigEndianSpells(n / 256, k - 1);
    }
  }

  lemma SplitEqual(a: Bytes, x: Bytes, b: Bytes, y: Bytes)
    requires a + x == b + y && |a| == |b|
    ensures a == b && x == y
  {
    assert (a + x)[..|a|] == a && (b + y)[..|b|] == b;
    assert (a + x)[|a|..] == x && (b + y)[|b|..] == y;
  }

  lemma WordThenRest(n: nat, x: Bytes, m: nat, y: Bytes)
    requires U64Bytes(n) + x == U64Bytes(m) + y && n <= U64_MAX && m <= U64_MAX
    ensures n == m && x == y
  {
    SplitEqual(U64Bytes(n), x, U64Bytes(m), y);
    WordFits(n);
    WordFits(m);
    BigEndianSpells(n, 8);
    BigEndianSpells(m, 8);
  }

  predicate Sized(b: Bytes) {
    |b| <= U64_MAX
  }

  predicate AllSized(items: seq<Bytes>) {
    forall k :: 0 <= k < |items| ==> Sized(items[k])
  }

  lemma PrefixedThenRest(a: Bytes, x: Bytes, b: Bytes, y: Bytes)
    requires Prefixed(a) + x == Prefixed(b) + y && Sized(a) && Sized(b)
    ensures a == b && x == y
  {
    hide U64Bytes;
    assert Prefixed(a) + x == U64Bytes(|a|) + (a + x) && Prefixed(b) + y == U64Bytes(|b|) + (b + y);
    WordThenRest(|a|, a + x, |b|, b + y);
    SplitEqual(a, x, b, y);
  }

  lemma {:induction false} FirstOfAll(items: seq<Bytes>)
    requires items != []
    ensures PrefixedAll(items) == Prefixed(items[0]) + PrefixedAll(items[1..])
  {
    hide Prefixed;
    var init, last := items[..|items| - 1], items[|items| - 1];
    if |items| == 1 {
      assert init == [] && items[1..] == [];
    } else {
      FirstOfAll(init);
      assert init[1..] == items[1..][..|items| - 2];
      assert items[1..] == init[1..] + [last];
      AllSnoc(init[1..], last);
      assert Prefixed(items[0]) + PrefixedAll(init[1..]) + Prefixed(last)
             == Prefixed(items[0]) + (PrefixedAll(init[1..]) + Prefixed(last));
    }
  }

  lemma {:induction false} AllThenRest(a: seq<Bytes>, x: Bytes, b: seq<Bytes>, y: Bytes)
    requires |a| == |b| && AllSized(a) && AllSized(b) && PrefixedAll(a) + x == PrefixedAll(b) + y
    ensures a == b && x == y
    decreases |a|
  {
    hide Prefixed, PrefixedAll;
    NothingPrefixed();
    if a == [] {
      assert [] + x == x && [] + y == y;
    } else {
      FirstOfAll(a);
      FirstOfAll(b);
      var s, t := PrefixedAll(a[1..]), PrefixedAll(b[1..]);
      assert Prefixed(a[0]) + s + x == Prefixed(a[0]) + (s + x) && Prefixed(b[0]) + t + y == Prefixed(b[0]) + (t + y);
      PrefixedThenRest(a[0], s + x, b[0], t + y);
      AllThenRest(a[1..], x, b[1..], y);
      assert a == [a[0]] + a[1..] && b == [b[0]] + b[1..];
    }
  }

  /** A domain-separated buffer determines its domain and every field. */
  lemma DomainBufferDetermines(domain: Bytes, fields: seq<Bytes>, domain': Bytes, fields': seq<Bytes>)
    requires Sized(domain) && Sized(domain') && AllSized(fields) && AllSized(fields')
    requires |fields| <= U64_MAX && |fields'| <= U64_MAX
    ensures DomainBuffer(domain, fields) == DomainBuffer(domain', fields') <==> domain == domain' && fields == fields'
  {
    hide Prefixed, PrefixedAll, U64Bytes;
    if DomainBuffer(domain, fields) == DomainBuffer(domain', fields') {
      var x, y := U64Bytes(|fields|) + PrefixedAll(fields), U64Bytes(|fields'|) + PrefixedAll(fields');
      assert DomainBuffer(domain, fields) == Prefixed(domain) + x
             && DomainBuffer(domain', fields') == Prefixed(domain') + y;
      PrefixedThenRest(domain, x, domain', y);
      WordThenRest(|fields|, PrefixedAll(fields), |fields'|, PrefixedAll(fields'));
      assert PrefixedAll(fields) + [] == PrefixedAll(fields') + [];
      AllThenRest(fields, [], fields', []);
    }
  }

  lemma {:induction false} PairsDetermine(s: seq<Precondition>, t: seq<Precondition>)
    requires Pairs(s) == Pairs(t)
    ensures s == t
    decreases |s|
  {
    assert |Pairs(s)| == |Pairs(t)|;
    if s != [] {
      var a, b := Pairs(s[..|s| - 1]), Pairs(t[..|t| - 1]);
      assert Pairs(s)[..|a|] == a && Pairs(t)[..|b|] == b;
      assert Pairs(s)[|a|] == s[|s| - 1].name && Pairs(s)[|a| + 1] == s[|s| - 1].value;
      assert Pairs(t)[|b|] == t[|t| - 1].name && Pairs(t)[|b| + 1] == t[|t| - 1].value;
      PairsDetermine(s[..|s| - 1], t[..|t| - 1]);
      assert s == s[..|s| - 1] + [s[|s| - 1]] && t == t[..|t| - 1] + [t[|t| - 1]];
    }
  }

  predicate RequestSized(r: Request) {
    && Sized(r.kind) && |r.payload| <= U64_MAX && AllSized(r.payload)
    && |r.preconditions| <= U64_MAX && AllSized(Pairs(SortNames(r.preconditions)))
  }

  /** The buffer after the four leading fields. */
  function Body(r: Request): Bytes {
    U64Bytes(|r.preconditions|)
    + (PrefixedAll(Pairs(SortNames(r.preconditions))) + (U64Bytes(|r.payload|) + PrefixedAll(r.payload)))
  }

  lemma BufferShape(tenant: Bytes, resource: Bytes, r: Request)
    ensures MaterialBuffer(tenant, resource, r)
            == Prefixed(DOMAIN) + (Prefixed(tenant) + (Prefixed(r.kind) + (Prefixed(resource) + Body(r))))
  {
    hide Prefixed, U64Bytes, PrefixedAll, SortNames, Pairs;
    var a, b, c, d := Prefixed(DOMAIN), Prefixed(tenant), Prefixed(r.kind), Prefixed(resource);
    var e, f, g, h := U64Bytes(|r.preconditions|), PrefixedAll(Pairs(SortNames(r.preconditions))),
        U64Bytes(|r.payload|), PrefixedAll(r.payload);
    Regroup(a, b, c, d, e, f, g, h);
  }

  lemma Regroup(a: Bytes, b: Bytes, c: Bytes, d: Bytes, e: Bytes, f: Bytes, g: Bytes, h: Bytes)
    ensures a + b + c + d + e + f + g + h == a + (b + (c + (d + (e + (f + (g + h))))))
  {
  }

  lemma BodiesAgree(r: Request, r': Request)
    requires RequestSized(r) && RequestSized(r') && Body(r) == Body(r')
    ensures SortNames(r.preconditions) == SortNames(r'.preconditions) && r.payload == r'.payload
  {
    hide Prefixed, U64Bytes, PrefixedAll, SortNames, Pairs;
    var p, p' := Pairs(SortNames(r.preconditions)), Pairs(SortNames(r'.preconditions));
    assert |r.preconditions| <= U64_MAX && |r'.preconditions| <= U64_MAX;
    var x, x' := U64Bytes(|r.payload|) + PrefixedAll(r.payload), U64Bytes(|r'.payload|) + PrefixedAll(r'.payload);
    WordThenRest(|r.preconditions|, PrefixedAll(p) + x, |r'.preconditions|, PrefixedAll(p') + x');
    AllThenRest(p, x, p', x');
    PairsDetermine(SortNames(r.preconditions), SortNames(r'.preconditions));
    WordThenRest(|r.payload|, PrefixedAll(r.payload), |r'.payload|, PrefixedAll(r'.payload));
    assert PrefixedAll(r.payload) + [] == PrefixedAll(r'.payload) + [];
    AllThenRest(r.payload, [], r'.payload, []);
  }

  /** Two hashed buffers are equal exactly when tenant, kind, resource and payload
      list agree and the preconditions agree name by name, each name's values in
      order. */
  lemma MaterialDetermines(tenant: Bytes, resource: Bytes, r: Request, tenant': Bytes, resource': Bytes, r': Request)
    requires Sized(tenant) && Sized(tenant') && Sized(resource) && Sized(resource') && RequestSized(r)
             && RequestSized(r')
    ensures MaterialBuffer(tenant, resource, r) == MaterialBuffer(tenant', resource', r')
            <==> && tenant == tenant' && resource == resource' && r.kind == r'.kind && r.payload == r'.payload
                 && SameNamed(r.preconditions, r'.preconditions)
  {
    hide Prefixed, U64Bytes, PrefixedAll, SortNames, Pairs, SameNamed, MaterialBuffer;
    BufferShape(tenant, resource, r);
    BufferShape(tenant', resource', r');
    if MaterialBuffer(tenant, resource, r) == MaterialBuffer(tenant', resource', r') {
      PrefixedThenRest(DOMAIN, Prefixed(tenant) + (Prefixed(r.kind) + (Prefixed(resource) + Body(r))),
                       DOMAIN, Prefixed(tenant') + (Prefixed(r'.kind) + (Prefixed(resource') + Body(r'))));
      PrefixedThenRest(tenant, Prefixed(r.kind) + (Prefixed(resource) + Body(r)),
                       tenant', Prefixed(r'.kind) + (Prefixed(resource') + Body(r')));
      PrefixedThenRest(r.kind, Prefixed(resource) + Body(r), r'.kind, Prefixed(resource') + Body(r'));
      PrefixedThenRest(resource, Body(r), resource', Body(r'));
      BodiesAgree(r, r');
      SortedAlike(r.preconditions, r'.preconditions);
    }
    if SameNamed(r.preconditions, r'.preconditions) {
      NamedAlike(r.preconditions, r'.preconditions);
    }
  }
}
