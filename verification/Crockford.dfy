/** Operation ids: a 48-bit timestamp and 144 bits of entropy, and their Crockford
    text form. The loops keep a 32-bit accumulator whose high bits fall away. */
module Crockford {
  import opened Wrappers
  import opened Bits

  const ALPHABET: string := "0123456789ABCDEFGHJKMNPQRSTVWXYZ"

  /** What a 32-bit word keeps of a number. */
  function Word(x: nat): nat {
    x % 0x1_0000_0000
  }

  datatype FormatError = BadPrefix | BadLength | BadCharacter | BadDecodedLength

  // ---- bits of a number ----------------------------------------------------------------

  /** x >> n */
  function Down(x: nat, n: nat): nat {
    if n == 0 then x else Down(x / 2, n - 1)
  }

  /** x << n, before the word drops its high bits */
  function Up(x: nat, n: nat): nat {
    if n == 0 then x else 2 * Up(x, n - 1)
  }

  /** Bit j of x, counted from the lowest. */
  function At(x: nat, j: nat): (b: nat)
    ensures b < 2
  {
    if j == 0 then x % 2 else At(x / 2, j - 1)
  }

  lemma {:induction false} AtDown(x: nat, n: nat, j: nat)
    ensures At(Down(x, n), j) == At(x, n + j)
  {
    if n > 0 {
      AtDown(x / 2, n - 1, j);
    }
  }

  lemma {:induction false} AtUp(x: nat, n: nat, j: nat)
    ensures At(Up(x, n), j) == if j < n then 0 else At(x, j - n)
  {
    if n > 0 {
      var y := Up(x, n - 1);
      assert (2 * y) / 2 == y && (2 * y) % 2 == 0;
      if j > 0 {
        AtUp(x, n - 1, j - 1);
      }
    }
  }

  lemma AtPlus(x: nat, low: nat, n: nat, j: nat)
    requires low < Up(1, n)
    ensures At(Up(x, n) + low, j) == if j < n then At(low, j) else At(x, j - n)
    decreases n
  {
    if n > 0 {
      var y := Up(x, n - 1);
      assert (2 * y + low) / 2 == y + low / 2 && (2 * y + low) % 2 == low % 2;
      if j > 0 {
        AtPlus(x, low / 2, n - 1, j - 1);
      }
    }
  }

  /** The bits of x below n. */
  function Low(x: nat, n: nat): nat {
    if n == 0 then 0 else 2 * Low(x / 2, n - 1) + x % 2
  }

  lemma {:induction false} Parts(x: nat, n: nat)
    ensures x == Up(Down(x, n), n) + Low(x, n) && Low(x, n) < Up(1, n)
  {
    if n > 0 {
      Parts(x / 2, n - 1);
    }
  }

  lemma {:induction false} UpJoin(x: nat, m: nat, n: nat)
    ensures Up(x, m + n) == Up(Up(x, m), n)
  {
    if n > 0 {
      UpJoin(x, m, n - 1);
    }
  }

  lemma UpIsTimes(x: nat)
    ensures Up(x, 32) == 0x1_0000_0000 * x
  {
    Up8(x);
    Up8(256 * x);
    Up8(65_536 * x);
    Up8(16_777_216 * x);
    UpJoin(x, 8, 8);
    UpJoin(x, 16, 8);
    UpJoin(x, 24, 8);
  }

  lemma UpTwice(x: nat)
    ensures Up(x, 2) == 4 * x
  {
    assert Up(x, 1) == 2 * x;
  }

  lemma Up8(x: nat)
    ensures Up(x, 8) == 256 * x
  {
    UpTwice(x);
    UpTwice(4 * x);
    UpTwice(16 * x);
    UpTwice(64 * x);
    UpJoin(x, 2, 2);
    UpJoin(x, 4, 2);
    UpJoin(x, 6, 2);
  }

  lemma WordIsLow(x: nat, high: nat, low: nat)
    requires x == 0x1_0000_0000 * high + low && low < 0x1_0000_0000
    ensures Word(x) == low
  {
  }

  /** A 32-bit word keeps the bits below 32. */
  lemma AtWord(x: nat, j: nat)
    requires j < 32
    ensures At(Word(x), j) == At(x, j)
  {
    hide At, Up, Down, Low;
    Parts(x, 32);
    UpIsTimes(Down(x, 32));
    UpIsTimes(1);
    WordIsLow(x, Down(x, 32), Low(x, 32));
    AtPlus(Down(x, 32), Low(x, 32), 32, j);
    UpIsTimes(0);
    AtPlus(0, Low(x, 32), 32, j);
  }

  /** A five-bit number is its bits. */
  lemma Five(x: nat)
    ensures x % 32 == 16 * At(x, 4) + 8 * At(x, 3) + 4 * At(x, 2) + 2 * At(x, 1) + At(x, 0)
  {
    hide At;
    Bit4(x);
    FiveSum(x, x / 2, x / 2 / 2, x / 2 / 2 / 2, x / 2 / 2 / 2 / 2, x / 2 / 2 / 2 / 2 / 2,
            At(x, 0), At(x, 1), At(x, 2), At(x, 3), At(x, 4));
  }

  lemma FiveSum(x: nat, x1: nat, x2: nat, x3: nat, x4: nat, x5: nat, a: nat, b: nat, c: nat, d: nat, e: nat)
    requires a < 2 && b < 2 && c < 2 && d < 2 && e < 2
    requires x == 2 * x1 + a && x1 == 2 * x2 + b && x2 == 2 * x3 + c && x3 == 2 * x4 + d && x4 == 2 * x5 + e
    ensures x % 32 == 16 * e + 8 * d + 4 * c + 2 * b + a
  {
    assert x == 32 * x5 + (16 * e + 8 * d + 4 * c + 2 * b + a);
  }

  lemma Bit4(x: nat)
    ensures At(x, 0) == x % 2 && At(x, 1) == x / 2 % 2 && At(x, 2) == x / 2 / 2 % 2
    ensures At(x, 3) == x / 2 / 2 / 2 % 2 && At(x, 4) == x / 2 / 2 / 2 / 2 % 2
  {
    AtStep(x, 0);
    AtStep(x, 1);
    AtStep(x / 2, 0);
    AtStep(x, 2);
    AtStep(x / 2, 1);
    AtStep(x / 2 / 2, 0);
    AtStep(x, 3);
    AtStep(x / 2, 2);
    AtStep(x / 2 / 2, 1);
    AtStep(x / 2 / 2 / 2, 0);
  }

  lemma AtStep(x: nat, j: nat)
    ensures At(x, j + 1) == At(x / 2, j) && At(x, 0) == x % 2
  {
  }

  /** A byte's bits, from either end. */
  lemma ByteAt(x: Byte, j: nat)
    requires j < 8
    ensures At(x, j) == BitOf(x, 7 - j)
  {
    DownIsShr(x, j);
    AtDown(x, j, 0);
  }

  lemma {:induction false} DownIsShr(x: Byte, n: nat)
    ensures Down(x, n) == Shr(x, n)
  {
    if n > 0 {
      DownSnoc(x, n - 1);
      DownIsShr(x, n - 1);
    }
  }

  lemma {:induction false} DownSnoc(x: nat, n: nat)
    ensures Down(x, n + 1) == Down(x, n) / 2
  {
    if n > 0 {
      DownSnoc(x / 2, n - 1);
    }
  }

  // ---- encoding -----------------------------------------------------------------------------

  /** Characters that n bytes take. */
  function Width(n: nat): nat {
    (8 * n + 4) / 5
  }

  function Groups(bytes: seq<Byte>): (v: seq<nat>)
    ensures |v| == Width(|bytes|) && forall k :: 0 <= k < |v| ==> v[k] == Group(bytes, k) < 32
  {
    seq(Width(|bytes|), k requires 0 <= k < Width(|bytes|) => Group(bytes, k))
  }

  function Symbols(values: seq<nat>): string
    requires forall k :: 0 <= k < |values| ==> values[k] < 32
  {
    seq(|values|, k requires 0 <= k < |values| => ALPHABET[values[k]])
  }

  /** The low n bits of an accumulator are the n bits of the stream up to `end`. */
  ghost predicate Holds(bits: nat, n: nat, stream: nat -> nat, end: nat) {
    n <= end && forall j :: 0 <= j < n ==> At(bits, j) == stream(end - 1 - j)
  }

  function BitsOf(bytes: seq<Byte>): nat -> nat {
    b => Bit(bytes, b)
  }

  /** Shifting a byte into the accumulator. */
  lemma ShiftInByte(bits: nat, n: nat, bytes: seq<Byte>, i: nat)
    requires i < |bytes| && n < 5 && Holds(bits, n, BitsOf(bytes), 8 * i)
    ensures Holds(Word(Up(bits, 8) + bytes[i]), n + 8, BitsOf(bytes), 8 * (i + 1))
  {
    hide Up, At;
    Up8(1);
    assert n <= 8 * i;
    var x, end := Word(Up(bits, 8) + bytes[i]), 8 * (i + 1);
    forall j | 0 <= j < n + 8 ensures At(x, j) == Bit(bytes, end - 1 - j) {
      AtWord(Up(bits, 8) + bytes[i], j);
      AtPlus(bits, bytes[i], 8, j);
      if j < 8 {
        ByteAt(bytes[i], j);
        BitAt(bytes, i, 7 - j);
      }
    }
  }

  /** The group that the top five held bits make. */
  lemma TakesGroup(bits: nat, n: nat, bytes: seq<Byte>, m: nat)
    requires n >= 5 && Holds(bits, n, BitsOf(bytes), 5 * m + n)
    ensures Down(bits, n - 5) % 32 == Group(bytes, m)
  {
    hide At, Down, Bit;
    var x := Down(bits, n - 5);
    Five(x);
    AtDown(bits, n - 5, 0);
    AtDown(bits, n - 5, 1);
    AtDown(bits, n - 5, 2);
    AtDown(bits, n - 5, 3);
    AtDown(bits, n - 5, 4);
    assert At(bits, n - 5) == Bit(bytes, 5 * m + 4);
    assert At(bits, n - 4) == Bit(bytes, 5 * m + 3);
    assert At(bits, n - 3) == Bit(bytes, 5 * m + 2);
    assert At(bits, n - 2) == Bit(bytes, 5 * m + 1);
    assert At(bits, n - 1) == Bit(bytes, 5 * m);
  }

  /** The last group, padded with zero bits. */
  lemma TakesPadded(bits: nat, n: nat, bytes: seq<Byte>, m: nat)
    requires 0 < n < 5 && 5 * m + n == 8 * |bytes| && Holds(bits, n, BitsOf(bytes), 5 * m + n)
    ensures Word(Up(bits, 5 - n)) % 32 == Group(bytes, m)
  {
    hide At, Up;
    var x := Word(Up(bits, 5 - n));
    Five(x);
    PaddedBit(bits, n, bytes, m, 0);
    PaddedBit(bits, n, bytes, m, 1);
    PaddedBit(bits, n, bytes, m, 2);
    PaddedBit(bits, n, bytes, m, 3);
    PaddedBit(bits, n, bytes, m, 4);
  }

  lemma PaddedBit(bits: nat, n: nat, bytes: seq<Byte>, m: nat, j: nat)
    requires 0 < n < 5 && 5 * m + n == 8 * |bytes| && Holds(bits, n, BitsOf(bytes), 5 * m + n) && j < 5
    ensures At(Word(Up(bits, 5 - n)), j) == Bit(bytes, 5 * m + 4 - j)
  {
    hide At, Up, Bit;
    AtWord(Up(bits, 5 - n), j);
    AtUp(bits, 5 - n, j);
    if j < 5 - n {
      BitBeyond(bytes, 5 * m + 4 - j);
    }
  }

  lemma HoldsLess(bits: nat, n: nat, k: nat, stream: nat -> nat, end: nat)
    requires Holds(bits, n, stream, end) && k <= n
    ensures Holds(bits, k, stream, end)
  {
  }

  /** crockford_encode: the characters of the five-bit groups, the last padded. */
  method Encode(bytes: seq<Byte>) returns (out: string)
    ensures out == Symbols(Groups(bytes)) && 8 * |bytes| <= 5 * |out| < 8 * |bytes| + 5
  {
    hide At, Up, Down, Group, Word, Holds, BitsOf, Groups, Symbols;
    var bits, nbits := 0, 0;
    out := "";
    NoBitsHeld(BitsOf(bytes));
    for i := 0 to |bytes|
      invariant nbits < 5 && 8 * i == 5 * |out| + nbits
      invariant Holds(bits, nbits, BitsOf(bytes), 8 * i)
      invariant forall k :: 0 <= k < |out| ==> out[k] == ALPHABET[Group(bytes, k)]
    {
      ShiftInByte(bits, nbits, bytes, i);
      bits := Word(Up(bits, 8) + bytes[i]);
      nbits := nbits + 8;
      while nbits >= 5
        invariant nbits <= 12 && 8 * (i + 1) == 5 * |out| + nbits
        invariant Holds(bits, nbits, BitsOf(bytes), 8 * (i + 1))
        invariant forall k :: 0 <= k < |out| ==> out[k] == ALPHABET[Group(bytes, k)]
      {
        TakesGroup(bits, nbits, bytes, |out|);
        HoldsLess(bits, nbits, nbits - 5, BitsOf(bytes), 8 * (i + 1));
        nbits := nbits - 5;
        out := out + [ALPHABET[Down(bits, nbits) % 32]];
      }
    }
    if nbits > 0 {
      TakesPadded(bits, nbits, bytes, |out|);
      out := out + [ALPHABET[Word(Up(bits, 5 - nbits)) % 32]];
    }
    assert |out| == Width(|bytes|);
    GroupSymbols(bytes, out);
  }

  lemma NoBitsHeld(stream: nat -> nat)
    ensures Holds(0, 0, stream, 0)
  {
  }

  lemma GroupSymbols(bytes: seq<Byte>, out: string)
    requires |out| == Width(|bytes|) && forall k :: 0 <= k < |out| ==> out[k] == ALPHABET[Group(bytes, k)]
    ensures out == Symbols(Groups(bytes))
  {
    hide Group;
  }

  // ---- decoding ------------------------------------------------------------------------------

  function Upper(c: char): char {
    if 'a' <= c <= 'z' then (c as int - 32) as char else c
  }

  /** Case folds, I and L read as 1, O as 0. Only the low eight bits of any other
      character are looked up. */
  function Value(c: char): (v: Option<nat>)
    ensures v.Some? ==> v.value < 32
  {
    var u := Upper(c);
    var mapped := if u == 'I' || u == 'L' then '1' else if u == 'O' then '0' else u;
    Position(ALPHABET, mapped as int % 256, 0)
  }

  function Position(alphabet: string, code: int, from: nat): (i: Option<nat>)
    requires from <= |alphabet|
    ensures i.Some? ==> from <= i.value < |alphabet| && alphabet[i.value] as int == code
    ensures i.None? ==> forall k :: from <= k < |alphabet| ==> alphabet[k] as int != code
    decreases |alphabet| - from
  {
    if from == |alphabet| then None
    else if alphabet[from] as int == code then Some(from)
    else Position(alphabet, code, from + 1)
  }

  predicate Readable(s: string) {
    forall k :: 0 <= k < |s| ==> Value(s[k]).Some?
  }

  function Values(s: string): (v: seq<nat>)
    requires Readable(s)
    ensures |v| == |s| && forall k :: 0 <= k < |s| ==> v[k] == Value(s[k]).value < 32
  {
    seq(|s|, k requires 0 <= k < |s| => Value(s[k]).value)
  }

  /** Bit b of a stream of five-bit values. */
  function ValueBit(values: seq<nat>, b: nat): (bit: nat)
    ensures bit < 2
  {
    if b / 5 < |values| then At(values[b / 5], 4 - b % 5) else 0
  }

  function ValueBits(values: seq<nat>): nat -> nat {
    b => ValueBit(values, b)
  }

  function ByteOf(values: seq<nat>, m: nat): Byte {
    var b := 8 * m;
    128 * ValueBit(values, b) + 64 * ValueBit(values, b + 1) + 32 * ValueBit(values, b + 2)
    + 16 * ValueBit(values, b + 3)
    + 8 * ValueBit(values, b + 4) + 4 * ValueBit(values, b + 5) + 2 * ValueBit(values, b + 6) + ValueBit(values, b + 7)
  }

  lemma ByteOfBits(values: seq<nat>, m: nat, i: nat)
    requires i < 8
    ensures BitOf(ByteOf(values, m), i) == ValueBit(values, 8 * m + i)
  {
    hide ValueBit, BitOf;
    var b := 8 * m;
    EightBits(ValueBit(values, b), ValueBit(values, b + 1), ValueBit(values, b + 2), ValueBit(values, b + 3),
              ValueBit(values, b + 4), ValueBit(values, b + 5), ValueBit(values, b + 6), ValueBit(values, b + 7));
    assert i == 0 || i == 1 || i == 2 || i == 3 || i == 4 || i == 5 || i == 6 || i == 7;
  }

  lemma EightBits(a: nat, b: nat, c: nat, d: nat, e: nat, f: nat, g: nat, h: nat)
    requires a < 2 && b < 2 && c < 2 && d < 2 && e < 2 && f < 2 && g < 2 && h < 2
    ensures var x := 128 * a + 64 * b + 32 * c + 16 * d + 8 * e + 4 * f + 2 * g + h;
            && x < 256
            && BitOf(x, 0) == a && BitOf(x, 1) == b && BitOf(x, 2) == c && BitOf(x, 3) == d
            && BitOf(x, 4) == e && BitOf(x, 5) == f && BitOf(x, 6) == g && BitOf(x, 7) == h
  {
    var x: Byte := 128 * a + 64 * b + 32 * c + 16 * d + 8 * e + 4 * f + 2 * g + h;
    ShrOnce(x, 0, 64 * a + 32 * b + 16 * c + 8 * d + 4 * e + 2 * f + g, h);
    ShrOnce(x, 1, 32 * a + 16 * b + 8 * c + 4 * d + 2 * e + f, g);
    ShrOnce(x, 2, 16 * a + 8 * b + 4 * c + 2 * d + e, f);
    ShrOnce(x, 3, 8 * a + 4 * b + 2 * c + d, e);
    ShrOnce(x, 4, 4 * a + 2 * b + c, d);
    ShrOnce(x, 5, 2 * a + b, c);
    ShrOnce(x, 6, a, b);
  }

  lemma ShrOnce(x: Byte, n: nat, high: nat, low: nat)
    requires Shr(x, n) == 2 * high + low && low < 2
    ensures Shr(x, n + 1) == high && Shr(x, n) % 2 == low
  {
  }

  /** The whole bytes of a stream of five-bit values; the bits left over are
      dropped. */
  function Bytes(values: seq<nat>): (b: seq<Byte>)
    ensures |b| == 5 * |values| / 8 && forall m :: 0 <= m < |b| ==> b[m] == ByteOf(values, m)
  {
    seq(5 * |values| / 8, m requires 0 <= m < 5 * |values| / 8 => ByteOf(values, m))
  }

  lemma ValueBitAt(values: seq<nat>, i: nat, j: nat)
    requires i < |values| && j < 5
    ensures ValueBit(values, 5 * i + j) == At(values[i], 4 - j)
  {
    assert (5 * i + j) / 5 == i && (5 * i + j) % 5 == j;
  }

  lemma ShiftInValue(bits: nat, n: nat, values: seq<nat>, i: nat)
    requires i < |values| && values[i] < 32 && n < 8 && Holds(bits, n, ValueBits(values), 5 * i)
    ensures Holds(Word(Up(bits, 5) + values[i]), n + 5, ValueBits(values), 5 * (i + 1))
  {
    hide Up, At, ValueBit;
    Up5();
    assert n <= 5 * i;
    var x, end := Word(Up(bits, 5) + values[i]), 5 * (i + 1);
    forall j | 0 <= j < n + 5 ensures At(x, j) == ValueBit(values, end - 1 - j) {
      AtWord(Up(bits, 5) + values[i], j);
      AtPlus(bits, values[i], 5, j);
      if j < 5 {
        ValueBitAt(values, i, 4 - j);
      }
    }
  }

  lemma Up5()
    ensures Up(1, 5) == 32
  {
    UpTwice(1);
    UpTwice(4);
    UpJoin(1, 2, 2);
    UpJoin(1, 4, 1);
    assert Up(16, 1) == 32;
  }

  lemma TakesByte(bits: nat, n: nat, values: seq<nat>, m: nat)
    requires n >= 8 && Holds(bits, n, ValueBits(values), 8 * m + n)
    ensures Down(bits, n - 8) % 256 == ByteOf(values, m)
  {
    hide At, Down, ValueBit, BitOf, ByteOf;
    var x: Byte := Down(bits, n - 8) % 256;
    forall i | 0 <= i < 8 ensures BitOf(x, i) == BitOf(ByteOf(values, m), i) {
      ByteAt(x, 7 - i);
      ByteOfBits(values, m, i);
      LowByte(Down(bits, n - 8), 7 - i);
      AtDown(bits, n - 8, 7 - i);
    }
    BitsDetermineByte(x, ByteOf(values, m));
  }

  lemma LowByte(x: nat, j: nat)
    requires j < 8
    ensures At(x % 256, j) == At(x, j)
  {
    hide At, Low, Up, Down;
    Parts(x, 8);
    Up8(Down(x, 8));
    Up8(1);
    Up8(0);
    assert x % 256 == Low(x, 8);
    AtPlus(Down(x, 8), Low(x, 8), 8, j);
    AtPlus(0, Low(x, 8), 8, j);
  }

  /** crockford_decode */
  method Decode(s: string) returns (r: Result<seq<Byte>, FormatError>)
    ensures r == if Readable(s) then Ok(Bytes(Values(s))) else Err(BadCharacter)
  {
    hide At, Up, Down, ByteOf, Word, Value, Holds, Values;
    var bits, nbits, out: seq<Byte> := 0, 0, [];
    ghost var values: seq<nat> := [];
    NothingHeld();
    for i := 0 to |s|
      invariant Readable(s[..i]) && values == Values(s[..i]) && nbits < 8 && 5 * i == 8 * |out| + nbits
      invariant Holds(bits, nbits, ValueBits(values), 5 * i)
      invariant forall k :: 0 <= k < |out| ==> out[k] == ByteOf(values, k)
    {
      var v := Value(s[i]);
      if v.None? {
        return Err(BadCharacter);
      }
      ghost var before := values;
      values := values + [v.value];
      assert values == Values(s[..i + 1]) && values[..i] == before;
      EarlierBits(values, i, bits, nbits);
      EarlierBytes(values, i, out);
      ShiftInValue(bits, nbits, values, i);
      bits := Word(Up(bits, 5) + v.value);
      nbits := nbits + 5;
      while nbits >= 8
        invariant nbits <= 12 && 5 * (i + 1) == 8 * |out| + nbits
        invariant Holds(bits, nbits, ValueBits(values), 5 * (i + 1))
        invariant forall k :: 0 <= k < |out| ==> out[k] == ByteOf(values, k)
      {
        TakesByte(bits, nbits, values, |out|);
        HoldsLess(bits, nbits, nbits - 8, ValueBits(values), 5 * (i + 1));
        nbits := nbits - 8;
        out := out + [Down(bits, nbits) % 256];
      }
    }
    assert s[..|s|] == s && |values| == |s|;
    assert out == Bytes(values);
    r := Ok(out);
  }

  lemma NothingHeld()
    ensures Holds(0, 0, ValueBits([]), 0)
  {
  }

  /** Bits of the first i values do not depend on later values. */
  lemma EarlierBits(values: seq<nat>, i: nat, bits: nat, n: nat)
    requires i <= |values| && Holds(bits, n, ValueBits(values[..i]), 5 * i)
    ensures Holds(bits, n, ValueBits(values), 5 * i)
  {
    hide At;
    var end := 5 * i;
    forall j | 0 <= j < n ensures At(bits, j) == ValueBits(values)(end - 1 - j) {
      assert (end - 1 - j) / 5 < i;
      assert At(bits, j) == ValueBits(values[..i])(end - 1 - j);
    }
  }

  lemma EarlierBytes(values: seq<nat>, i: nat, out: seq<Byte>)
    requires i <= |values| && 8 * |out| <= 5 * i
    requires forall k :: 0 <= k < |out| ==> out[k] == ByteOf(values[..i], k)
    ensures forall k :: 0 <= k < |out| ==> out[k] == ByteOf(values, k)
  {
    hide At, BitOf, ByteOf;
    forall k | 0 <= k < |out| ensures out[k] == ByteOf(values, k) {
      forall j | 0 <= j < 8 ensures BitOf(out[k], j) == BitOf(ByteOf(values, k), j) {
        assert (8 * k + j) / 5 < i;
        ByteOfBits(values, k, j);
        ByteOfBits(values[..i], k, j);
      }
      BitsDetermineByte(out[k], ByteOf(values, k));
    }
  }

  // ---- round trip ------------------------------------------------------------------------------

  /** Digits, then letters without I, L, O and U. */
  function Code(k: nat): int
    requires k < 32
  {
    if k < 10 then 48 + k
    else if k < 18 then 55 + k
    else if k < 20 then 56 + k
    else if k < 22 then 57 + k
    else if k < 27 then 58 + k
    else 59 + k
  }

  lemma Spelled(k: nat)
    requires k < 32
    ensures ALPHABET[k] as int == Code(k)
  {
    if k < 10 {
    } else if k < 18 {
    } else if k < 22 {
    } else if k < 27 {
    } else {
    }
  }

  lemma FoundFrom(k: nat, from: nat)
    requires from <= k < 32
    ensures Position(ALPHABET, Code(k), from) == Some(k)
    decreases 32 - from
  {
    Spelled(from);
    if from < k {
      FoundFrom(k, from + 1);
    }
  }

  lemma CodeReads(c: char, k: nat)
    requires k < 32 && c as int == Code(k)
    ensures Value(c) == Some(k)
  {
    hide Position;
    FoundFrom(k, 0);
    assert 'I' as int == 73 && 'L' as int == 76 && 'O' as int == 79 && 'a' as int == 97;
    assert Upper(c) == c;
    assert Code(k) % 256 == Code(k);
  }

  lemma AlphabetReads(k: nat)
    requires k < 32
    ensures Value(ALPHABET[k]) == Some(k)
  {
    hide Value;
    Spelled(k);
    CodeReads(ALPHABET[k], k);
  }

  lemma SymbolsRead(values: seq<nat>)
    requires forall k :: 0 <= k < |values| ==> values[k] < 32
    ensures Readable(Symbols(values)) && Values(Symbols(values)) == values
  {
    hide Value;
    var s := Symbols(values);
    forall k | 0 <= k < |s| ensures Value(s[k]) == Some(values[k]) {
      AlphabetReads(values[k]);
    }
    assert Values(s) == values;
  }

  lemma GroupBit(bytes: seq<Byte>, b: nat)
    requires b < 8 * |bytes|
    ensures ValueBit(Groups(bytes), b) == Bit(bytes, b)
  {
    hide At, Bit, Group;
    var k, j := b / 5, b % 5;
    assert k < Width(|bytes|);
    GroupAt(bytes, k, j);
  }

  lemma GroupAt(bytes: seq<Byte>, k: nat, j: nat)
    requires j < 5
    ensures At(Group(bytes, k), 4 - j) == Bit(bytes, 5 * k + j)
  {
    hide Bit;
    var x := Group(bytes, k);
    Bit4(x);
    var a, b, c, d, e := Bit(bytes, 5 * k), Bit(bytes, 5 * k + 1), Bit(bytes, 5 * k + 2), Bit(bytes, 5 * k + 3),
        Bit(bytes, 5 * k + 4);
    assert x / 2 == 8 * a + 4 * b + 2 * c + d;
    assert x / 2 / 2 == 4 * a + 2 * b + c;
    assert x / 2 / 2 / 2 == 2 * a + b;
    assert x / 2 / 2 / 2 / 2 == a;
    assert j == 0 || j == 1 || j == 2 || j == 3 || j == 4;
  }

  /** Decoding the text of any byte string, of any length, gives it back. */
  lemma RoundTrip(bytes: seq<Byte>)
    ensures var s := Symbols(Groups(bytes));
            Readable(s) && Bytes(Values(s)) == bytes
  {
    hide At, Bit, Group, ByteOf, BitOf;
    SymbolsRead(Groups(bytes));
    var back := Bytes(Groups(bytes));
    WidthIsExact(|bytes|);
    forall m | 0 <= m < |bytes| ensures back[m] == bytes[m] {
      forall i | 0 <= i < 8 ensures BitOf(back[m], i) == BitOf(bytes[m], i) {
        ByteOfBits(Groups(bytes), m, i);
        GroupBit(bytes, 8 * m + i);
        BitAt(bytes, m, i);
      }
      BitsDetermineByte(back[m], bytes[m]);
    }
  }

  lemma WidthIsExact(n: nat)
    ensures 5 * Width(n) / 8 == n
  {
  }
}
