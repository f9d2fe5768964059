/** Framing does not depend on buffering, except for where an oversized frame's
    id is looked for. */
module FramingTheorems {
  import opened Bits
  import opened Framing

  /** The newline split of a stream; a last piece with no newline counts if it is
      not empty. */
  function Pieces(s: seq<Byte>): seq<seq<Byte>>
    decreases |s|
  {
    if s == [] then [] else [Piece(s)] + Pieces(After(s))
  }

  /** What reading until the end gives. */
  function Kinds(s: seq<Byte>, max: nat): seq<Kind>
    decreases |s|
  {
    if s == [] then [IsEof] else [FirstKind(s, max)] + Kinds(After(s), max)
  }

  function KindsOf(frames: seq<FrameRead>): seq<Kind> {
    seq(|frames|, k requires 0 <= k < |frames| => KindOf(frames[k]))
  }

  /** Reading frames until the end of the stream. */
  method ReadAll(reader: BufReader, max: nat) returns (frames: seq<FrameRead>)
    requires reader.Valid()
    modifies reader
    ensures reader.Valid() && reader.Rest() == []
    ensures KindsOf(frames) == Kinds(old(reader.Rest()), max)
  {
    hide IndexOf, Flatten, Seen, Piece, After, Kinds, FirstKind, KindsOf;
    frames := [];
    ghost var stream := reader.Rest();
    NoKinds(Kinds(stream, max));
    while true
      invariant reader.Valid() && KindsOf(frames) + Kinds(reader.Rest(), max) == Kinds(stream, max)
      decreases |reader.Rest()|
    {
      ghost var rest := reader.Rest();
      var r := ReadFrame(reader, max);
      KindsStep(rest, max);
      KindsSnoc(frames, r, if rest == [] then [] else Kinds(After(rest), max));
      frames := frames + [r];
      if r.Eof? {
        return;
      }
    }
  }

  lemma NoKinds(more: seq<Kind>)
    ensures KindsOf([]) + more == more
  {
  }

  lemma KindsSnoc(frames: seq<FrameRead>, r: FrameRead, more: seq<Kind>)
    ensures KindsOf(frames + [r]) == KindsOf(frames) + [KindOf(r)]
    ensures KindsOf(frames) + ([KindOf(r)] + more) == KindsOf(frames + [r]) + more
    ensures KindsOf(frames) + [KindOf(r)] + [] == KindsOf(frames + [r])
  {
    assert KindsOf(frames + [r]) == KindsOf(frames) + [KindOf(r)];
  }

  lemma KindsStep(s: seq<Byte>, max: nat)
    ensures Kinds(s, max) == [FirstKind(s, max)] + (if s == [] then [] else Kinds(After(s), max))
    ensures FirstKind(s, max) == IsEof <==> s == []
    ensures s == [] ==> After(s) == []
    ensures s != [] ==> |After(s)| < |s|
  {
  }

  predicate EndsWith(s: seq<Byte>, b: Byte) {
    s != [] && s[|s| - 1] == b
  }

  lemma FirstKindIs(s: seq<Byte>, max: nat)
    requires s != []
    ensures var k, p := FirstKind(s, max), Piece(s);
            if |p| > max then k == IsOversized
            else k.IsLine? && if EndsWith(p, 13) then k.bytes + [13] == p else k.bytes == p
  {
    hide Piece;
  }

  /** The frames are the newline split of the stream, each piece a line without
      one trailing return if its raw length fits and oversized otherwise, then the
      end. */
  lemma {:induction false} KindsAreThePieces(s: seq<Byte>, max: nat)
    ensures var k, p := Kinds(s, max), Pieces(s);
            && |k| == |p| + 1 && k[|p|] == IsEof
            && forall n :: 0 <= n < |p| ==>
               if |p[n]| > max then k[n] == IsOversized
               else k[n].IsLine? && if EndsWith(p[n], 13) then k[n].bytes + [13] == p[n] else k[n].bytes == p[n]
    decreases |s|
  {
    hide Piece, After, FirstKind;
    KindsStep(s, max);
    if s != [] {
      FirstKindIs(s, max);
      KindsAreThePieces(After(s), max);
      var k, p := Kinds(After(s), max), Pieces(After(s));
      assert Pieces(s) == [Piece(s)] + p && Kinds(s, max) == [FirstKind(s, max)] + k;
    }
  }

  function Unsplit(pieces: seq<seq<Byte>>): seq<Byte> {
    if pieces == [] then [] else pieces[0] + [10] + Unsplit(pieces[1..])
  }

  lemma SplitAtNewline(s: seq<Byte>)
    requires s != []
    ensures NEWLINE !in Piece(s)
    ensures if NEWLINE in s then s == Piece(s) + [NEWLINE] + After(s) else Piece(s) == s && After(s) == []
  {
    hide IndexOf;
  }

  lemma UnsplitCons(piece: seq<Byte>, rest: seq<seq<Byte>>)
    ensures Unsplit([piece] + rest) == piece + [10] + Unsplit(rest)
  {
    assert ([piece] + rest)[1..] == rest;
  }

  /** No piece holds a newline, and ending each piece with one gives back the
      stream, but for a newline the stream's own end may lack: no byte is lost. */
  lemma {:induction false} PiecesKeepEveryByte(s: seq<Byte>)
    ensures forall n :: 0 <= n < |Pieces(s)| ==> 10 !in Pieces(s)[n]
    ensures Unsplit(Pieces(s)) == if s == [] || EndsWith(s, 10) then s else s + [10]
    decreases |s|
  {
    hide Piece, After, Unsplit;
    NothingUnsplit();
    if s != [] {
      var piece, rest := Piece(s), After(s);
      SplitAtNewline(s);
      PiecesKeepEveryByte(rest);
      assert Pieces(s) == [piece] + Pieces(rest);
      UnsplitCons(piece, Pieces(rest));
      if NEWLINE in s && rest != [] {
        assert s[|s| - 1] == rest[|rest| - 1];
        assert piece + [NEWLINE] + (rest + [NEWLINE]) == piece + [NEWLINE] + rest + [NEWLINE];
      }
    }
  }

  lemma NothingUnsplit()
    ensures Unsplit([]) == [] && Pieces([]) == []
  {
  }

  // ---- independence of the reads ------------------------------------------------------------

  /** Two readers of one stream, however it was split into reads, see the same
      kinds and leave the same rest. Two oversized frames look for their id in the
      same bytes exactly when their reads cross the limit at the same byte, or
      both past the end of the line. */
  lemma BufferingIndependent(r: FrameRead, r': FrameRead, runs: seq<seq<Byte>>, runs': seq<seq<Byte>>,
                             rest: seq<Byte>, rest': seq<Byte>, max: nat)
    requires Flatten(runs) == Flatten(runs')
    requires Framed(r, runs, rest, max) && Framed(r', runs', rest', max)
    ensures KindOf(r) == KindOf(r') && rest == rest'
    ensures r.Oversized? ==>
              var n := |Piece(Flatten(runs))|;
              (r == r' <==> Crossing(runs, max) == Crossing(runs', max)
                            || (Crossing(runs, max) >= n && Crossing(runs', max) >= n))
  {
    hide IndexOf, Flatten, Crossing;
    if r.Oversized? {
      var piece := Piece(Flatten(runs));
      SeenLength(runs, max);
      SeenLength(runs', max);
    }
  }

  lemma SeenLength(runs: seq<seq<Byte>>, max: nat)
    ensures var piece, n := Piece(Flatten(runs)), Crossing(runs, max);
            |Seen(runs, max)| == (if n < |piece| then n else |piece|) && Seen(runs, max) == piece[..|Seen(runs, max)|]
  {
    hide IndexOf, Flatten, Crossing;
  }

  const STREAM: seq<Byte> := [1, 2, 3, NEWLINE]

  function AtOnce(): seq<seq<Byte>> { [STREAM] }

  function ByteByByte(): seq<seq<Byte>> { [[1]] + ([[2]] + [[3, NEWLINE]]) }

  lemma OneStream()
    ensures Flatten(AtOnce()) == STREAM && Flatten(ByteByByte()) == STREAM && Piece(STREAM) == [1, 2, 3]
  {
    hide IndexOf, Flatten;
    FlattenOne(STREAM);
    FlattenCons([1], [[2]] + [[3, NEWLINE]]);
    FlattenCons([2], [[3, NEWLINE]]);
    FlattenOne([3, NEWLINE]);
    FirstIs(STREAM, NEWLINE, 3);
  }

  lemma TwoCrossings()
    ensures Crossing(AtOnce(), 1) == 4 && Crossing(ByteByByte(), 1) == 2
  {
    CrossingCons([1], [[2]] + [[3, NEWLINE]], 1);
    CrossingCons([2], [[3, NEWLINE]], 0);
  }

  lemma CrossingCons(a: seq<Byte>, rest: seq<seq<Byte>>, max: int)
    ensures Crossing([a] + rest, max) == if |a| > max then |a| else |a| + Crossing(rest, max - |a|)
  {
    assert ([a] + rest)[1..] == rest;
  }

  /** One line, read at once or byte by byte: the id is looked for in different
      bytes, so a line whose id comes late may be answered without it. */
  lemma SeenDependsOnReads()
    ensures exists runs: seq<seq<Byte>>, runs': seq<seq<Byte>>, max: nat ::
              && Flatten(runs) == Flatten(runs')
              && FirstKind(Flatten(runs), max) == IsOversized
              && Seen(runs, max) != Seen(runs', max)
  {
    hide Flatten, Piece, Crossing;
    OneStream();
    TwoCrossings();
    assert Seen(AtOnce(), 1) == [1, 2, 3] && |Seen(ByteByByte(), 1)| == 2;
  }

  lemma FlattenCons(a: seq<Byte>, rest: seq<seq<Byte>>)
    ensures Flatten([a] + rest) == a + Flatten(rest)
  {
    assert ([a] + rest)[1..] == rest;
  }

  lemma FlattenOne(a: seq<Byte>)
    ensures Flatten([a]) == a
  {
    assert [a][1..] == [];
  }
}
