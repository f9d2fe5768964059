/** Five-bit groups of a byte string, most significant bit first, padded with
    zero bits past its end. Both the stable-key trie and the Crockford text form
    read bytes this way. */
module Bits {
  type Byte = b: nat | b < 256

  /** x >> n */
  function Shr(x: Byte, n: nat): (r: Byte)
    ensures r <= x
  {
    if n == 0 then x else Shr(x, n - 1) / 2
  }

  function BitOf(x: Byte, i: nat): (r: nat)
    requires i < 8
    ensures r < 2
  {
    Shr(x, 7 - i) % 2
  }

  /** Bit b of a byte string, zero past its end. */
  function Bit(s: seq<Byte>, b: nat): (r: nat)
    ensures r < 2
  {
    if s == [] then 0 else if b < 8 then BitOf(s[0], b) else Bit(s[1..], b - 8)
  }

  function Group(s: seq<Byte>, k: nat): (r: nat)
    ensures r < 32
  {
    16 * Bit(s, 5 * k) + 8 * Bit(s, 5 * k + 1) + 4 * Bit(s, 5 * k + 2) + 2 * Bit(s, 5 * k + 3) + Bit(s, 5 * k + 4)
  }

  lemma ShrStep(x: Byte, n: nat)
    ensures Shr(x, n) == 2 * Shr(x, n + 1) + Shr(x, n) % 2
  {
  }

  lemma ByteIsItsBits(x: Byte)
    ensures x == 128 * BitOf(x, 0) + 64 * BitOf(x, 1) + 32 * BitOf(x, 2) + 16 * BitOf(x, 3)
                 + 8 * BitOf(x, 4) + 4 * BitOf(x, 5) + 2 * BitOf(x, 6) + BitOf(x, 7)
  {
    ShrBound(x);
    BitStep(x, 0);
    BitStep(x, 1);
    BitStep(x, 2);
    BitStep(x, 3);
    BitStep(x, 4);
    BitStep(x, 5);
    BitStep(x, 6);
    BitStep(x, 7);
    hide Shr, BitOf;
  }

  lemma BitStep(x: Byte, n: nat)
    requires n < 8
    ensures Shr(x, n) == 2 * Shr(x, n + 1) + BitOf(x, 7 - n)
    ensures Shr(x, 0) == x && (n == 7 && Shr(x, 7) < 2 ==> Shr(x, 8) == 0)
  {
    ShrStep(x, n);
  }

  lemma ShrBound(x: Byte)
    ensures Shr(x, 7) < 2
  {
    assert Shr(x, 1) < 128;
    assert Shr(x, 2) < 64;
    assert Shr(x, 3) < 32;
    assert Shr(x, 4) < 16;
    assert Shr(x, 5) < 8;
    assert Shr(x, 6) < 4;
  }

  lemma BitsDetermineByte(x: Byte, y: Byte)
    requires forall i :: 0 <= i < 8 ==> BitOf(x, i) == BitOf(y, i)
    ensures x == y
  {
    ByteIsItsBits(x);
    ByteIsItsBits(y);
  }

  /** The groups that overlap a byte string determine it. */
  lemma GroupsDetermine(s: seq<Byte>, t: seq<Byte>)
    requires |s| == |t|
    requires forall k :: 0 <= k && 5 * k < 8 * |s| ==> Group(s, k) == Group(t, k)
    ensures s == t
  {
    forall j | 0 <= j < |s| ensures s[j] == t[j] {
      forall i | 0 <= i < 8 ensures BitOf(s[j], i) == BitOf(t[j], i) {
        GroupDeterminesBit(s, t, 8 * j + i, (8 * j + i) / 5);
        BitAt(s, j, i);
        BitAt(t, j, i);
      }
      BitsDetermineByte(s[j], t[j]);
    }
  }

  lemma {:induction false} BitAt(s: seq<Byte>, j: nat, i: nat)
    requires j < |s| && i < 8
    ensures Bit(s, 8 * j + i) == BitOf(s[j], i)
  {
    hide BitOf;
    if j > 0 {
      BitAt(s[1..], j - 1, i);
      assert 8 * j + i - 8 == 8 * (j - 1) + i;
    }
  }

  lemma {:induction false} BitBeyond(s: seq<Byte>, b: nat)
    requires b >= 8 * |s|
    ensures Bit(s, b) == 0
  {
    if s != [] {
      BitBeyond(s[1..], b - 8);
    }
  }

  lemma GroupDeterminesBit(s: seq<Byte>, t: seq<Byte>, b: nat, k: nat)
    requires 5 * k <= b < 5 * k + 5 && Group(s, k) == Group(t, k)
    ensures Bit(s, b) == Bit(t, b)
  {
    FiveBits(Bit(s, 5 * k), Bit(s, 5 * k + 1), Bit(s, 5 * k + 2), Bit(s, 5 * k + 3), Bit(s, 5 * k + 4),
             Bit(t, 5 * k), Bit(t, 5 * k + 1), Bit(t, 5 * k + 2), Bit(t, 5 * k + 3), Bit(t, 5 * k + 4));
    if b == 5 * k {
    } else if b == 5 * k + 1 {
    } else if b == 5 * k + 2 {
    } else if b == 5 * k + 3 {
    } else {
      assert b == 5 * k + 4;
    }
  }

  lemma FiveBits(a: nat, b: nat, c: nat, d: nat, e: nat, a': nat, b': nat, c': nat, d': nat, e': nat)
    requires a < 2 && b < 2 && c < 2 && d < 2 && e < 2 && a' < 2 && b' < 2 && c' < 2 && d' < 2 && e' < 2
    requires 16 * a + 8 * b + 4 * c + 2 * d + e == 16 * a' + 8 * b' + 4 * c' + 2 * d' + e'
    ensures a == a' && b == b' && c == c' && d == d' && e == e'
  {
  }
}
