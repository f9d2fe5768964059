/** The JSONL framer: lines out of a buffered byte reader. */
module Framing {
  import opened Wrappers
  import opened Bits

  const NEWLINE: Byte := 10
  const RETURN: Byte := 13

  /** What one read of a frame gives. An oversized frame carries the bytes its id
      is looked for in. */
  datatype FrameRead = Line(bytes: seq<Byte>) | Oversized(seen: seq<Byte>) | Eof

  function Flatten(runs: seq<seq<Byte>>): seq<Byte> {
    if runs == [] then [] else runs[0] + Flatten(runs[1..])
  }

  /** The reads left after n bytes of the first were taken. */
  function Left(available: seq<Byte>, n: nat, pending: seq<seq<Byte>>): seq<seq<Byte>>
    requires n <= |available|
  {
    if n == |available| then pending else [available[n..]] + pending
  }

  /** A buffered reader: what is buffered now, and the reads still to come. A read
      of no bytes is the end of the stream, so none of them is empty. */
  class BufReader {
    var buffer: seq<Byte>
    var pending: seq<seq<Byte>>

    ghost predicate Valid()
      reads this
    {
      forall k :: 0 <= k < |pending| ==> pending[k] != []
    }

    /** The reads still to be seen, the buffered one first. */
    ghost function Reads(): (r: seq<seq<Byte>>)
      reads this
    {
      if buffer == [] then pending else [buffer] + pending
    }

    ghost function Rest(): seq<Byte>
      reads this
    {
      Flatten(Reads())
    }

    constructor (runs: seq<seq<Byte>>)
      requires forall k :: 0 <= k < |runs| ==> runs[k] != []
      ensures Valid() && Reads() == runs
    {
      buffer, pending := [], runs;
    }

    method FillBuf() returns (available: seq<Byte>)
      requires Valid()
      modifies this
      ensures Valid() && Reads() == old(Reads()) && available == buffer
      ensures available == [] <==> Reads() == []
      ensures available != [] ==> Reads() == [available] + pending
    {
      if buffer == [] && pending != [] {
        buffer, pending := pending[0], pending[1..];
      }
      available := buffer;
    }

    method Consume(n: nat)
      requires Valid() && n <= |buffer|
      modifies this
      ensures Valid() && pending == old(pending) && Reads() == Left(old(buffer), n, pending)
    {
      buffer := buffer[n..];
    }
  }

  function IndexOf(s: seq<Byte>, b: Byte): (i: Option<nat>)
    ensures i.Some? ==> i.value < |s| && s[i.value] == b && forall k :: 0 <= k < i.value ==> s[k] != b
    ensures i.None? <==> b !in s
  {
    if s == [] then None
    else if s[0] == b then Some(0)
    else
      var i := IndexOf(s[1..], b);
      if i.None? then None else Some(i.value + 1)
  }

  // ---- the newline split -------------------------------------------------------------

  /** The first piece of a nonempty stream and what follows its newline. */
  function Piece(s: seq<Byte>): seq<Byte> {
    var i := IndexOf(s, NEWLINE);
    if i.Some? then s[..i.value] else s
  }

  function After(s: seq<Byte>): seq<Byte> {
    var i := IndexOf(s, NEWLINE);
    if i.Some? then s[i.value + 1..] else []
  }

  function DropReturn(s: seq<Byte>): seq<Byte> {
    if s != [] && s[|s| - 1] == RETURN then s[..|s| - 1] else s
  }

  /** What a frame is, whatever the reads were. */
  datatype Kind = IsLine(bytes: seq<Byte>) | IsOversized | IsEof

  function KindOf(r: FrameRead): Kind {
    match r
    case Line(bytes) => IsLine(bytes)
    case Oversized(_) => IsOversized
    case Eof => IsEof
  }

  function FirstKind(s: seq<Byte>, max: nat): Kind {
    if s == [] then IsEof
    else if |Piece(s)| > max then IsOversized
    else IsLine(DropReturn(Piece(s)))
  }

  // ---- what depends on the reads -------------------------------------------------------

  /** Bytes of the shortest run of reads that goes past the limit, or of all. */
  function Crossing(runs: seq<seq<Byte>>, max: int): nat
    decreases |runs|
  {
    if runs == [] then 0
    else if |runs[0]| > max then |runs[0]|
    else |runs[0]| + Crossing(runs[1..], max - |runs[0]|)
  }

  /** An oversized frame's id is looked for in its piece up to the end of the read
      that crossed the limit. */
  function Seen(runs: seq<seq<Byte>>, max: nat): seq<Byte> {
    var piece, n := Piece(Flatten(runs)), Crossing(runs, max);
    if n < |piece| then piece[..n] else piece
  }

  lemma IndexOfJoin(a: seq<Byte>, b: seq<Byte>, x: Byte)
    ensures IndexOf(a + b, x) == if IndexOf(a, x).Some? then IndexOf(a, x)
                                 else if IndexOf(b, x).Some? then Some(|a| + IndexOf(b, x).value) else None
  {
    hide IndexOf;
    var i, j := IndexOf(a, x), IndexOf(b, x);
    if i.Some? {
      FirstIs(a + b, x, i.value);
    } else if j.Some? {
      FirstIs(a + b, x, |a| + j.value);
    } else {
      assert x !in a + b;
    }
  }

  lemma FirstIs(s: seq<Byte>, x: Byte, n: nat)
    requires n < |s| && s[n] == x && forall k :: 0 <= k < n ==> s[k] != x
    ensures IndexOf(s, x) == Some(n)
  {
    hide IndexOf;
    assert s[n] in s;
  }

  /** The stream is what was taken with no newline in it, and the rest. */
  lemma PieceJoin(buf: seq<Byte>, rest: seq<Byte>)
    requires NEWLINE !in buf
    ensures Piece(buf + rest) == buf + Piece(rest) && After(buf + rest) == After(rest)
  {
    hide IndexOf;
    IndexOfJoin(buf, rest, NEWLINE);
    var i := IndexOf(rest, NEWLINE);
    if i.Some? {
      assert (buf + rest)[..|buf| + i.value] == buf + rest[..i.value];
    }
  }

  // ---- reading a frame -----------------------------------------------------------------------

  /** A frame read off a stream: its kind and what is left depend on the stream
      alone; the bytes kept for an oversized frame's id depend also on where reads
      ended. */
  ghost predicate Framed(r: FrameRead, all: seq<seq<Byte>>, rest: seq<Byte>, max: nat) {
    && KindOf(r) == FirstKind(Flatten(all), max)
    && rest == After(Flatten(all))
    && (r.Oversized? ==> r.seen == Seen(all, max))
  }

  /** What the loop has taken: a run with no newline, and how far into the limit
      the reads are. */
  ghost predicate Taken(all: seq<seq<Byte>>, max: nat, buf: seq<Byte>, left: seq<seq<Byte>>) {
    && NEWLINE !in buf && Flatten(all) == buf + Flatten(left)
    && (|buf| <= max ==> Crossing(all, max) == |buf| + Crossing(left, max - |buf|))
    && (|buf| > max ==> left == [] && Seen(all, max) == buf)
  }

  /** read_jsonl_frame */
  method ReadFrame(reader: BufReader, max: nat) returns (r: FrameRead)
    requires reader.Valid()
    modifies reader
    ensures reader.Valid() && Framed(r, old(reader.Reads()), reader.Rest(), max)
  {
    hide IndexOf, Flatten, Framed, Taken, After, DropReturn, Left;
    ghost var all := reader.Reads();
    var buf: seq<Byte> := [];
    NothingTaken(all, max);
    while true
      invariant reader.Valid() && Taken(all, max, buf, reader.Reads())
      decreases |Flatten(reader.Reads())|
    {
      var available := reader.FillBuf();
      if available == [] {
        EndFramed(all, max, buf);
        if buf == [] {
          return Eof;
        }
        if |buf| > max {
          return Oversized(buf);
        }
        return Line(DropReturn(buf));
      }
      ghost var pending := reader.pending;
      FirstRead(available, pending);
      var at := IndexOf(available, NEWLINE);
      if at.Some? {
        var i := at.value;
        LineFramed(all, max, buf, available, pending, i);
        reader.Consume(i + 1);
        if |buf| + i > max {
          return Oversized(buf + available[..i]);
        }
        return Line(DropReturn(buf + available[..i]));
      }
      AllTaken(available, pending);
      if |buf| + |available| > max {
        reader.Consume(|available|);
        DrainUntilNewline(reader);
        CutFramed(all, max, buf, available, pending);
        return Oversized(buf + available);
      }
      TakesMore(all, max, buf, available, pending);
      reader.Consume(|available|);
      buf := buf + available;
    }
  }

  lemma NothingTaken(all: seq<seq<Byte>>, max: nat)
    ensures Taken(all, max, [], all)
  {
    assert [] + Flatten(all) == Flatten(all);
  }

  lemma EndFramed(all: seq<seq<Byte>>, max: nat, buf: seq<Byte>)
    requires Taken(all, max, buf, [])
    ensures Framed(if buf == [] then Eof else if |buf| > max then Oversized(buf) else Line(DropReturn(buf)),
                   all, Flatten([]), max)
  {
    hide IndexOf, Crossing, Seen;
    NothingLeft(buf);
  }

  lemma LineFramed(all: seq<seq<Byte>>, max: nat, buf: seq<Byte>, available: seq<Byte>, pending: seq<seq<Byte>>, i: nat)
    requires Taken(all, max, buf, [available] + pending) && IndexOf(available, NEWLINE) == Some(i)
    ensures Framed(if |buf| + i > max then Oversized(buf + available[..i]) else Line(DropReturn(buf + available[..i])),
                   all, Flatten(Left(available, i + 1, pending)), max)
  {
    hide IndexOf, Crossing, Seen, Flatten;
    FirstRead(available, pending);
    PieceJoin(buf, available + Flatten(pending));
    PieceEnds(available, Flatten(pending), i);
    LeftFlat(available, i + 1, pending);
    if |buf| + i > max {
      SeenWhole(all, max, buf, available, pending, i);
    }
  }

  lemma CutFramed(all: seq<seq<Byte>>, max: nat, buf: seq<Byte>, available: seq<Byte>, pending: seq<seq<Byte>>)
    requires Taken(all, max, buf, [available] + pending) && NEWLINE !in available && available != []
             && |buf| + |available| > max
    ensures Framed(Oversized(buf + available), all, After(Flatten(pending)), max)
  {
    hide IndexOf, Crossing, Seen, Flatten;
    FirstRead(available, pending);
    assert buf + available + Flatten(pending) == buf + (available + Flatten(pending));
    PieceJoin(buf + available, Flatten(pending));
    SeenCut(all, max, buf, available, pending);
  }

  lemma TakesMore(all: seq<seq<Byte>>, max: nat, buf: seq<Byte>, available: seq<Byte>, pending: seq<seq<Byte>>)
    requires Taken(all, max, buf, [available] + pending) && NEWLINE !in available && |buf| + |available| <= max
    ensures Taken(all, max, buf + available, pending)
  {
    hide IndexOf, Seen, Flatten;
    FirstRead(available, pending);
    assert buf + available + Flatten(pending) == buf + (available + Flatten(pending));
    CrossingStep(all, max, buf, available, pending);
  }

  /** drain_until_newline */
  method DrainUntilNewline(reader: BufReader)
    requires reader.Valid()
    modifies reader
    ensures reader.Valid() && reader.Rest() == After(old(reader.Rest()))
  {
    hide IndexOf, Flatten, After, Piece, Left;
    while true
      invariant reader.Valid() && After(reader.Rest()) == After(old(reader.Rest()))
      decreases |reader.Rest()|
    {
      var available := reader.FillBuf();
      if available == [] {
        NothingLeft([]);
        return;
      }
      ghost var pending := reader.pending;
      FirstRead(available, pending);
      assert reader.Rest() == available + Flatten(pending);
      var at := IndexOf(available, NEWLINE);
      if at.Some? {
        PieceEnds(available, Flatten(pending), at.value);
        reader.Consume(at.value + 1);
        LeftFlat(available, at.value + 1, pending);
        return;
      }
      PieceJoin(available, Flatten(pending));
      AllTaken(available, pending);
      reader.Consume(|available|);
    }
  }

  lemma NothingLeft(buf: seq<Byte>)
    requires NEWLINE !in buf
    ensures Flatten([]) == [] && buf + [] == buf && Piece(buf) == buf && After(buf) == []
  {
    assert buf + [] == buf;
  }

  lemma FirstRead(available: seq<Byte>, pending: seq<seq<Byte>>)
    ensures Flatten([available] + pending) == available + Flatten(pending)
  {
    assert ([available] + pending)[1..] == pending;
  }

  lemma LeftFlat(available: seq<Byte>, n: nat, pending: seq<seq<Byte>>)
    requires n <= |available|
    ensures Flatten(Left(available, n, pending)) == available[n..] + Flatten(pending)
  {
    hide Flatten;
    FirstRead(available[n..], pending);
    assert n == |available| ==> available[n..] + Flatten(pending) == Flatten(pending);
  }

  lemma AllTaken(available: seq<Byte>, pending: seq<seq<Byte>>)
    ensures Left(available, |available|, pending) == pending
  {
  }

  lemma SliceFront(a: seq<Byte>, b: seq<Byte>, i: nat)
    requires i <= |a|
    ensures (a + b)[..i] == a[..i]
  {
  }

  lemma SliceBack(a: seq<Byte>, b: seq<Byte>, i: nat)
    requires i <= |a|
    ensures (a + b)[i..] == a[i..] + b
  {
  }

  lemma PieceEnds(available: seq<Byte>, more: seq<Byte>, i: nat)
    requires IndexOf(available, NEWLINE) == Some(i)
    ensures Piece(available + more) == available[..i] && After(available + more) == available[i + 1..] + more
  {
    hide IndexOf;
    IndexOfJoin(available, more, NEWLINE);
    SliceFront(available, more, i);
    SliceBack(available, more, i + 1);
  }

  lemma CrossingStep(all: seq<seq<Byte>>, max: nat, buf: seq<Byte>, available: seq<Byte>, pending: seq<seq<Byte>>)
    requires |buf| + |available| <= max
    requires Crossing(all, max) == |buf| + Crossing([available] + pending, max - |buf|)
    ensures Crossing(all, max) == |buf + available| + Crossing(pending, max - |buf + available|)
  {
    assert ([available] + pending)[1..] == pending;
  }

  lemma SeenWhole(all: seq<seq<Byte>>, max: nat, buf: seq<Byte>, available: seq<Byte>, pending: seq<seq<Byte>>, i: nat)
    requires NEWLINE !in buf && IndexOf(available, NEWLINE) == Some(i) && |buf| + i > max
    requires Flatten(all) == buf + (available + Flatten(pending))
    requires |buf| <= max && Crossing(all, max) == |buf| + Crossing([available] + pending, max - |buf|)
    ensures Seen(all, max) == buf + available[..i]
  {
    PieceJoin(buf, available + Flatten(pending));
    PieceEnds(available, Flatten(pending), i);
  }

  lemma SeenCut(all: seq<seq<Byte>>, max: nat, buf: seq<Byte>, available: seq<Byte>, pending: seq<seq<Byte>>)
    requires NEWLINE !in buf && NEWLINE !in available && |buf| + |available| > max && |buf| <= max
    requires Flatten(all) == buf + available + Flatten(pending)
    requires Crossing(all, max) == |buf| + Crossing([available] + pending, max - |buf|)
    ensures Seen(all, max) == buf + available
  {
    PieceJoin(buf + available, Flatten(pending));
  }
}
