/** Operation ids: layout, text form, and exactly which texts parse to one id. */
module OperationIds {
  import opened Wrappers
  import opened Bits
  import opened Crockford

  const ID_BYTES: nat := 24
  const BODY_LENGTH: nat := 39
  const PREFIX: string := "op_"

  type Id = b: seq<Byte> | |b| == 24 witness seq(24, _ => 0)

  // ---- layout ------------------------------------------------------------------------------

  /** x >> 8k */
  function Shift8(x: nat, k: nat): nat {
    if k == 0 then x else Shift8(x, k - 1) / 256
  }

  /** Byte k of x, counted from the lowest. */
  function Octet(x: nat, k: nat): Byte {
    Shift8(x, k) % 256
  }

  /** from_millis_and_entropy: 48 bits of milliseconds, big end first, then 144
      bits of entropy. */
  function FromMillis(ms: nat, entropy: seq<Byte>): Id
    requires |entropy| == 18
  {
    var t := ms % 0x1_0000_0000_0000;
    [Octet(t, 5), Octet(t, 4), Octet(t, 3), Octet(t, 2), Octet(t, 1), Octet(t, 0)] + entropy
  }

  function IssuedAt(id: Id): nat {
    0x100_0000_0000 * (id[0] as nat) + 0x1_0000_0000 * (id[1] as nat) + 0x100_0000 * (id[2] as nat)
    + 0x1_0000 * (id[3] as nat) + 0x100 * (id[4] as nat) + (id[5] as nat)
  }

  lemma Shift8Step(t: nat, k: nat)
    ensures Shift8(t, k) == 256 * Shift8(t, k + 1) + Shift8(t, k) % 256
  {
  }

  lemma Shift8Small(t: nat)
    requires t < 0x1_0000_0000_0000
    ensures Shift8(t, 5) < 256
  {
    assert Shift8(t, 1) < 0x100_0000_0000;
    assert Shift8(t, 2) < 0x1_0000_0000;
    assert Shift8(t, 3) < 0x100_0000;
    assert Shift8(t, 4) < 0x1_0000;
  }

  /** The 48-bit timestamp and the entropy survive. */
  lemma TimestampSurvives(ms: nat, entropy: seq<Byte>)
    requires |entropy| == 18
    ensures IssuedAt(FromMillis(ms, entropy)) == ms % 0x1_0000_0000_0000
    ensures FromMillis(ms, entropy)[6..] == entropy
  {
    hide Octet;
    SixOctets(ms % 0x1_0000_0000_0000);
  }

  /** A 48-bit number is made of its six bytes. */
  lemma SixOctets(t: nat)
    requires t < 0x1_0000_0000_0000
    ensures t == 0x100_0000_0000 * Octet(t, 5) + 0x1_0000_0000 * Octet(t, 4) + 0x100_0000 * Octet(t, 3)
                 + 0x1_0000 * Octet(t, 2) + 0x100 * Octet(t, 1) + Octet(t, 0)
  {
    Shift8Step(t, 0);
    Shift8Step(t, 1);
    Shift8Step(t, 2);
    Shift8Step(t, 3);
    Shift8Step(t, 4);
    Shift8Small(t);
    ShiftNothing(t);
    hide Shift8;
  }

  lemma ShiftNothing(t: nat)
    ensures Shift8(t, 0) == t
  {
  }

  // ---- text -------------------------------------------------------------------------------------

  /** Bytes a character takes in UTF-8. */
  function Utf8(c: char): (n: nat)
    ensures 1 <= n <= 4
    ensures (n == 1 <==> c as int < 0x80) && (n <= 2 <==> c as int < 0x800) && (n <= 3 <==> c as int < 0x1_0000)
  {
    if c as int < 0x80 then 1 else if c as int < 0x800 then 2 else if c as int < 0x1_0000 then 3 else 4
  }

  function Utf8Length(s: string): nat {
    if s == "" then 0 else Utf8(s[0]) + Utf8Length(s[1..])
  }

  function Display(id: Id): string {
    PREFIX + Symbols(Groups(id))
  }

  function Parse(s: string): Result<Id, FormatError> {
    if !(PREFIX <= s) then Err(BadPrefix)
    else
      var body := s[3..];
      if Utf8Length(body) != BODY_LENGTH then Err(BadLength)
      else if !Readable(body) then Err(BadCharacter)
      else if |Bytes(Values(body))| != ID_BYTES then Err(BadDecodedLength)
      else Ok(Bytes(Values(body)))
  }

  predicate Ascii(s: string) {
    forall k :: 0 <= k < |s| ==> s[k] as int < 128
  }

  lemma {:induction false} Utf8AtLeast(s: string)
    ensures Utf8Length(s) >= |s|
    ensures Utf8Length(s) == |s| <==> Ascii(s)
  {
    if s != "" {
      Utf8AtLeast(s[1..]);
      assert Ascii(s) <==> s[0] as int < 128 && Ascii(s[1..]) by {
        assert forall k :: 0 <= k < |s| - 1 ==> s[1..][k] == s[k + 1];
        assert forall k :: 1 <= k < |s| ==> s[k] == s[1..][k - 1];
      }
    }
  }

  /** What parses: the prefix and 39 ASCII characters, each a letter or digit of
      the alphabet up to case and aliases. The byte count and the decoded length
      together shut out every character that needs more than one byte. */
  lemma ParsesExactly(s: string)
    ensures Parse(s).Ok? <==> PREFIX <= s && |s| == 42 && Ascii(s[3..]) && Readable(s[3..])
  {
    if PREFIX <= s {
      Utf8AtLeast(s[3..]);
    }
  }

  /** How a text fails, in the order of the tests: a body of the right byte count
      whose characters all read decodes short exactly when one of them is wider
      than a byte. */
  lemma ParseErrors(s: string)
    ensures Parse(s) == Err(BadPrefix) <==> !(PREFIX <= s)
    ensures PREFIX <= s ==>
              && (Parse(s) == Err(BadLength) <==> Utf8Length(s[3..]) != 39)
              && (Parse(s) == Err(BadCharacter) <==> Utf8Length(s[3..]) == 39 && !Readable(s[3..]))
              && (Parse(s) == Err(BadDecodedLength)
                  <==> Utf8Length(s[3..]) == 39 && Readable(s[3..]) && !Ascii(s[3..]))
  {
    if PREFIX <= s {
      Utf8AtLeast(s[3..]);
    }
  }

  /** The decoder alone is not so strict: it looks up the low eight bits of a
      character, so one outside ASCII can read as a letter. */
  lemma DecoderReadsBeyondAscii()
    ensures exists c: char :: c as int >= 128 && Value(c).Some?
  {
    var c: char := '\U{0141}';
    assert c as int % 256 == Code(10);
    hide Position;
    FoundFrom(10, 0);
    assert 'I' as int == 73 && 'L' as int == 76 && 'O' as int == 79 && 'z' as int == 122;
    assert Value(c) == Some(10);
  }

  lemma SymbolsAreAscii(values: seq<nat>)
    requires forall k :: 0 <= k < |values| ==> values[k] < 32
    ensures Ascii(Symbols(values)) && |Symbols(values)| == |values|
  {
    forall k | 0 <= k < |values| ensures Symbols(values)[k] as int < 128 {
      Spelled(values[k]);
    }
  }

  /** Parsing the text of an id gives it back. */
  lemma ParseOfDisplay(id: Id)
    ensures Parse(Display(id)) == Ok(id)
  {
    hide Symbols, Groups, Bytes, Values;
    var body := Symbols(Groups(id));
    assert Display(id)[3..] == body;
    SymbolsAreAscii(Groups(id));
    Utf8AtLeast(body);
    RoundTrip(id);
  }

  // ---- case and aliases ----------------------------------------------------------------------------

  /** What an ASCII character reads as: a digit or letter of the alphabet as its
      place there, a small letter as its capital, I and L as 1, O as 0; nothing
      else is read, U among it. */
  lemma ReadsExactly(c: char, v: nat)
    requires c as int < 128 && v < 32
    ensures Value(c) == Some(v)
            <==> || c as int == Code(v) || (v >= 10 && c as int == Code(v) + 32)
                 || (v == 1 && c in "IiLl") || (v == 0 && c in "Oo")
  {
    hide Position;
    FoundFrom(v, 0);
    FoundFrom(1, 0);
    FoundFrom(0, 0);
    Spelled(v);
    assert 'I' as int == 73 && 'L' as int == 76 && 'O' as int == 79 && '0' as int == 48 && '1' as int == 49;
    assert 'i' as int == 105 && 'l' as int == 108 && 'o' as int == 111 && 'a' as int == 97 && 'z' as int == 122;
  }

  /** The same character, or the same letter in the other case. */
  predicate SameLetter(c: char, d: char) {
    || c == d
    || (97 <= c as int <= 122 && d as int + 32 == c as int)
    || (65 <= c as int <= 90 && d as int == c as int + 32)
  }

  lemma CaseFolds(c: char, d: char)
    requires SameLetter(c, d)
    ensures Value(c) == Value(d) && Utf8(c) == Utf8(d)
  {
    assert Upper(c) == Upper(d) by {
      assert 'a' as int == 97 && 'z' as int == 122;
    }
    hide Position, Upper;
  }

  lemma BodiesAgree(s: string, t: string)
    requires |s| == |t| && Readable(s) && (forall k :: 0 <= k < |s| ==> Value(s[k]) == Value(t[k]))
    ensures Readable(t) && Values(s) == Values(t)
  {
    hide Value;
  }

  lemma ReadableAlike(s: string, t: string)
    requires |s| == |t| && forall k :: 0 <= k < |s| ==> Value(s[k]) == Value(t[k])
    ensures Readable(s) <==> Readable(t)
  {
    hide Value;
  }

  lemma {:induction false} SameWidths(s: string, t: string)
    requires |s| == |t| && forall k :: 0 <= k < |s| ==> Utf8(s[k]) == Utf8(t[k])
    ensures Utf8Length(s) == Utf8Length(t)
  {
    hide Utf8;
    if s != "" {
      SameWidths(s[1..], t[1..]);
    }
  }

  /** Two texts whose characters read alike and are as wide parse alike. */
  lemma ParseFolds(s: string, t: string)
    requires |s| == |t| && (PREFIX <= s <==> PREFIX <= t)
    requires forall k :: 3 <= k < |s| ==> Value(s[k]) == Value(t[k]) && Utf8(s[k]) == Utf8(t[k])
    ensures Parse(s) == Parse(t)
  {
    hide Value, Bytes, Utf8;
    if PREFIX <= s {
      SameWidths(s[3..], t[3..]);
      ReadableAlike(s[3..], t[3..]);
      if Readable(s[3..]) {
        BodiesAgree(s[3..], t[3..]);
      }
    }
  }

  /** The case of any letter after the prefix does not matter, on any text. */
  lemma ParseIgnoresCase(s: string, t: string)
    requires |s| == |t| && (PREFIX <= s <==> PREFIX <= t) && forall k :: 3 <= k < |s| ==> SameLetter(s[k], t[k])
    ensures Parse(s) == Parse(t)
  {
    hide Value, Utf8, Parse;
    forall k | 3 <= k < |s| ensures Value(s[k]) == Value(t[k]) && Utf8(s[k]) == Utf8(t[k]) {
      CaseFolds(s[k], t[k]);
    }
    ParseFolds(s, t);
  }

  /** So the text of an id in any mixture of cases names that id. */
  lemma AnyCaseParses(id: Id, t: string)
    requires |t| == |Display(id)| && PREFIX <= t
    requires forall k :: 3 <= k < |t| ==> SameLetter(Display(id)[k], t[k])
    ensures Parse(t) == Ok(id)
  {
    hide Parse, Symbols, Groups;
    ParseOfDisplay(id);
    ParseIgnoresCase(Display(id), t);
  }

  // ---- the padding bits ------------------------------------------------------------------------------

  lemma TopTwoBits(v: nat)
    requires v < 32
    ensures v / 8 == 2 * At(v, 4) + At(v, 3)
  {
    hide At;
    Bit4(v);
  }

  lemma FiveDetermine(v: nat, w: nat)
    requires v < 32 && w < 32 && forall j :: 0 <= j < 5 ==> At(v, j) == At(w, j)
    ensures v == w
  {
    hide At;
    Five(v);
    Five(w);
  }

  lemma SameBytesSameBits(v: seq<nat>, w: seq<nat>, b: nat)
    requires |v| == |w| && Bytes(v) == Bytes(w) && 8 * (b / 8) + 8 <= 5 * |v|
    ensures ValueBit(v, b) == ValueBit(w, b)
  {
    hide ByteOf, ValueBit, BitOf;
    var m := b / 8;
    assert m < 5 * |v| / 8;
    assert ByteOf(v, m) == Bytes(v)[m] == Bytes(w)[m] == ByteOf(w, m);
    ByteOfBits(v, m, b % 8);
    ByteOfBits(w, m, b % 8);
    assert 8 * m + b % 8 == b;
  }

  lemma SameBitsSameBytes(v: seq<nat>, w: seq<nat>)
    requires |v| == |w| && forall b :: 0 <= b < 8 * (5 * |v| / 8) ==> ValueBit(v, b) == ValueBit(w, b)
    ensures Bytes(v) == Bytes(w)
  {
    hide ValueBit, BitOf, ByteOf;
    forall m | 0 <= m < |Bytes(v)| ensures Bytes(v)[m] == Bytes(w)[m] {
      forall i | 0 <= i < 8 ensures BitOf(ByteOf(v, m), i) == BitOf(ByteOf(w, m), i) {
        ByteOfBits(v, m, i);
        ByteOfBits(w, m, i);
      }
      BitsDetermineByte(ByteOf(v, m), ByteOf(w, m));
    }
  }

  /** Two 39-character bodies decode alike exactly when all characters but the last
      read the same and the last agree in their top two bits: the low three are
      padding and are not looked at. */
  lemma PaddingIsIgnored(v: seq<nat>, w: seq<nat>)
    requires |v| == 39 && |w| == 39
    requires forall k :: 0 <= k < 39 ==> v[k] < 32 && w[k] < 32
    ensures Bytes(v) == Bytes(w) <==> v[..38] == w[..38] && v[38] / 8 == w[38] / 8
  {
    hide At, Bytes, ValueBit;
    TopTwoBits(v[38]);
    TopTwoBits(w[38]);
    if Bytes(v) == Bytes(w) {
      forall k | 0 <= k < 38 ensures v[k] == w[k] {
        forall j | 0 <= j < 5 ensures At(v[k], j) == At(w[k], j) {
          ValueBitAt(v, k, 4 - j);
          ValueBitAt(w, k, 4 - j);
          SameBytesSameBits(v, w, 5 * k + (4 - j));
        }
        FiveDetermine(v[k], w[k]);
      }
      LastBits(v, w);
    }
    if v[..38] == w[..38] && v[38] / 8 == w[38] / 8 {
      forall b | 0 <= b < 192 ensures ValueBit(v, b) == ValueBit(w, b) {
        ValueBitAt(v, b / 5, b % 5);
        ValueBitAt(w, b / 5, b % 5);
        if b < 190 {
          assert v[b / 5] == v[..38][b / 5] == w[..38][b / 5] == w[b / 5];
        } else {
          assert b == 190 || b == 191;
        }
      }
      SameBitsSameBytes(v, w);
    }
  }

  lemma LastBits(v: seq<nat>, w: seq<nat>)
    requires |v| == 39 && |w| == 39 && Bytes(v) == Bytes(w)
    ensures At(v[38], 4) == At(w[38], 4) && At(v[38], 3) == At(w[38], 3)
  {
    hide At, Bytes, ValueBit;
    ValueBitAt(v, 38, 0);
    ValueBitAt(w, 38, 0);
    ValueBitAt(v, 38, 1);
    ValueBitAt(w, 38, 1);
    SameBytesSameBits(v, w, 190);
    SameBytesSameBits(v, w, 191);
  }

  /** Which texts name the same id. */
  lemma SameIdExactly(s: string, t: string)
    requires Parse(s).Ok? && Parse(t).Ok?
    ensures Parse(s) == Parse(t)
            <==> Values(s[3..])[..38] == Values(t[3..])[..38] && Values(s[3..])[38] / 8 == Values(t[3..])[38] / 8
  {
    hide Bytes, Value;
    ParsesExactly(s);
    ParsesExactly(t);
    PaddingIsIgnored(Values(s[3..]), Values(t[3..]));
  }

  /** The prefix, 38 zeros and one last character. */
  function ZerosThen(last: char): (s: string)
    ensures |s| == 42 && PREFIX <= s && |s[3..]| == 39 && s[41] == last
    ensures forall k :: 0 <= k < 38 ==> s[3..][k] == '0'
  {
    PREFIX + seq(38, _ => '0') + [last]
  }

  lemma ZerosRead(last: char, v: nat)
    requires Value(last) == Some(v) && last as int < 128
    ensures Ascii(ZerosThen(last)[3..]) && Readable(ZerosThen(last)[3..])
    ensures Values(ZerosThen(last)[3..]) == seq(38, _ => 0) + [v]
  {
    CodeReads('0', 0);
    hide ZerosThen, Value;
    var body := ZerosThen(last)[3..];
    assert body[38] == last;
    assert forall k :: 0 <= k < 39 ==> Value(body[k]) == if k < 38 then Some(0) else Some(v);
  }

  /** Two different texts that name one id: their last characters differ in a
      padding bit only. */
  lemma TwoTextsOneId()
    ensures ZerosThen('0') != ZerosThen('1')
    ensures Parse(ZerosThen('0')).Ok? && Parse(ZerosThen('1')) == Parse(ZerosThen('0'))
  {
    CodeReads('0', 0);
    CodeReads('1', 1);
    ZerosRead('0', 0);
    ZerosRead('1', 1);
    var s, t := ZerosThen('0'), ZerosThen('1');
    hide ZerosThen, Value, Values, Readable, Ascii, Parse;
    assert s[41] != t[41];
    ParsesExactly(s);
    ParsesExactly(t);
    SameIdExactly(s, t);
    assert (seq(38, _ => 0) + [0])[..38] == seq(38, _ => 0) == (seq(38, _ => 0) + [1])[..38];
  }

  /** A text is the one its id is shown as exactly when its characters are the
      alphabet's own and its padding bits are zero. */
  lemma ShownAsParsed(s: string)
    requires Parse(s).Ok?
    ensures Display(Parse(s).value) == s
            <==> (forall k :: 3 <= k < 42 ==> s[k] == ALPHABET[Value(s[k]).value]) && Values(s[3..])[38] % 8 == 0
  {
    hide Bytes, Value, Groups, ValueBit, At, Group;
    ParsesExactly(s);
    var id, v := Parse(s).value, Values(s[3..]);
    var g := Groups(id);
    ParseOfDisplay(id);
    RoundTrip(id);
    SymbolsRead(g);
    PaddingIsIgnored(v, g);
    LastGroupPads(id);
    assert Display(id)[3..] == Symbols(g);
    if Display(id) == s {
      forall k | 3 <= k < 42 ensures s[k] == ALPHABET[Value(s[k]).value] {
        assert s[k] == Symbols(g)[k - 3];
        AlphabetReads(g[k - 3]);
      }
    }
    if (forall k :: 3 <= k < 42 ==> s[k] == ALPHABET[Value(s[k]).value]) && v[38] % 8 == 0 {
      assert v[38] == 8 * (v[38] / 8) && g[38] == 8 * (g[38] / 8);
      assert v == v[..38] + [v[38]] && g == g[..38] + [g[38]];
      forall k | 0 <= k < 39 ensures s[3..][k] == Symbols(g)[k] {
        assert s[3..][k] == s[k + 3];
      }
      assert s == PREFIX + s[3..];
      assert s[3..] == Symbols(g);
    }
  }

  lemma LastGroupPads(id: Id)
    ensures |Groups(id)| == 39 && Groups(id)[38] % 8 == 0
  {
    hide BitOf, Bit;
    BitBeyond(id, 192);
    BitBeyond(id, 193);
    BitBeyond(id, 194);
    assert Group(id, 38) == 16 * Bit(id, 190) + 8 * Bit(id, 191);
  }
}
