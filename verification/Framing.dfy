/** Framing a TCP byte stream into fixed-size OUCH messages, whatever way the stream is cut into reads. */
module Framing {
  import opened Types

  const ENTER_ORDER: Byte := 79    // 'O'
  const CANCEL_ORDER: Byte := 88   // 'X'
  const REPLACE_ORDER: Byte := 85  // 'U'

  /** The sizes of the three inbound wire structs. */
  datatype Sizes = Sizes(enter: nat, cancel: nat, replace: nat) {
    predicate Valid() {
      0 < enter && 0 < cancel && 0 < replace
    }
  }

  function MsgSize(z: Sizes, t: Byte): nat {
    if t == ENTER_ORDER then z.enter
    else if t == CANCEL_ORDER then z.cancel
    else if t == REPLACE_ORDER then z.replace
    else 0
  }

  /** The complete frames of a stream, and the bytes that must wait for more. */
  datatype Scanned = Scanned(frames: seq<seq<Byte>>, tail: seq<Byte>)

  function Scan(z: Sizes, data: seq<Byte>): Scanned
    requires z.Valid()
    decreases |data|
  {
    if data == [] then Scanned([], [])
    else
      var n := MsgSize(z, data[0]);
      if n == 0 then Scan(z, data[1..])  // an unknown type byte is skipped
      else if |data| < n then Scanned([], data)
      else
        var rest := Scan(z, data[n..]);
        Scanned([data[..n]] + rest.frames, rest.tail)
  }

  /** Scanning what was left over together with what came next is scanning the whole. */
  lemma {:induction false} ScanConcat(z: Sizes, a: seq<Byte>, b: seq<Byte>)
    requires z.Valid()
    ensures var s := Scan(z, a);
            var r := Scan(z, s.tail + b);
            Scan(z, a + b) == Scanned(s.frames + r.frames, r.tail)
    decreases |a|
  {
    if a == [] {
      assert a + b == b && [] + b == b;
    } else {
      var n := MsgSize(z, a[0]);
      assert (a + b)[0] == a[0];
      if n == 0 {
        assert (a + b)[1..] == a[1..] + b;
        ScanConcat(z, a[1..], b);
      } else if n <= |a| {
        assert (a + b)[n..] == a[n..] + b && (a + b)[..n] == a[..n];
        ScanConcat(z, a[n..], b);
        var s := Scan(z, a[n..]);
        var r := Scan(z, s.tail + b);
        assert [a[..n]] + (s.frames + r.frames) == [a[..n]] + s.frames + r.frames;
      }
    }
  }

  /** Reading chunk by chunk, keeping the leftover in between. */
  function Feed(z: Sizes, chunks: seq<seq<Byte>>): Scanned
    requires z.Valid()
  {
    if chunks == [] then Scanned([], [])
    else
      var s := Feed(z, chunks[..|chunks| - 1]);
      var r := Scan(z, s.tail + chunks[|chunks| - 1]);
      Scanned(s.frames + r.frames, r.tail)
  }

  /** Every way of cutting a stream into reads yields the frames and the leftover of one read. */
  lemma {:induction false} ChunkingIsIrrelevant(z: Sizes, chunks: seq<seq<Byte>>)
    requires z.Valid()
    ensures Feed(z, chunks) == Scan(z, Flatten(chunks))
  {
    if chunks != [] {
      ChunkingIsIrrelevant(z, chunks[..|chunks| - 1]);
      ScanConcat(z, Flatten(chunks[..|chunks| - 1]), chunks[|chunks| - 1]);
    }
  }

  // ---------------------------------------------------------------- what the frames are

  /** A complete Enter ('O'), Cancel ('X') or Replace ('U') message. */
  predicate Complete(z: Sizes, frame: seq<Byte>) {
    && frame != []
    && ((frame[0] == 79 && |frame| == z.enter) || (frame[0] == 88 && |frame| == z.cancel)
        || (frame[0] == 85 && |frame| == z.replace))
  }

  predicate UnknownByte(x: Byte) {
    x != 79 && x != 88 && x != 85
  }

  /** The beginning of a message whose end has not arrived. */
  predicate Beginning(z: Sizes, tail: seq<Byte>) {
    && tail != []
    && ((tail[0] == 79 && |tail| < z.enter) || (tail[0] == 88 && |tail| < z.cancel)
        || (tail[0] == 85 && |tail| < z.replace))
  }

  /** The frame lies at this offset, before end. */
  ghost predicate LiesAt(z: Sizes, data: seq<Byte>, frame: seq<Byte>, off: nat, end: int) {
    Complete(z, frame) && off + |frame| <= end <= |data| && frame == data[off..off + |frame|]
  }

  ghost predicate Inside(at: seq<nat>, frames: seq<seq<Byte>>, p: nat)
    requires |at| == |frames|
  {
    exists i :: 0 <= i < |at| && at[i] <= p < at[i] + |frames[i]|
  }

  ghost predicate Apart(at: seq<nat>, frames: seq<seq<Byte>>)
    requires |at| == |frames|
  {
    forall i, j :: 0 <= i < j < |at| ==> at[i] + |frames[i]| <= at[j]
  }

  /** Up to end, the bytes outside all frames are unknown ones. */
  ghost predicate SkipsUnknown(data: seq<Byte>, at: seq<nat>, frames: seq<seq<Byte>>, end: int)
    requires |at| == |frames| && end <= |data|
  {
    forall p :: 0 <= p < end && !Inside(at, frames, p) ==> UnknownByte(data[p])
  }

  /** The frames lie in the stream at these offsets, in order, with only unknown bytes between them. */
  ghost predicate Parsed(z: Sizes, data: seq<Byte>, s: Scanned, at: seq<nat>) {
    var end := |data| - |s.tail|;
    && |at| == |s.frames| && 0 <= end && s.tail == data[end..] && (s.tail == [] || Beginning(z, s.tail))
    && (forall i :: 0 <= i < |at| ==> LiesAt(z, data, s.frames[i], at[i], end))
    && Apart(at, s.frames) && SkipsUnknown(data, at, s.frames, end)
  }

  ghost function Moved(at: seq<nat>, n: nat): seq<nat> {
    seq(|at|, i requires 0 <= i < |at| => at[i] + n)
  }

  lemma LiesBehind(z: Sizes, data: seq<Byte>, n: nat, frame: seq<Byte>, off: nat, end: int)
    requires n <= |data| && LiesAt(z, data[n..], frame, off, end - n)
    ensures LiesAt(z, data, frame, off + n, end)
  {
    assert data[n..][off..off + |frame|] == data[off + n..off + n + |frame|];
  }

  lemma SkipsBehind(data: seq<Byte>, n: nat, at: seq<nat>, frames: seq<seq<Byte>>, end: int, p: nat)
    requires n <= |data| && |at| == |frames| && end <= |data| && SkipsUnknown(data[n..], at, frames, end - n)
    requires n <= p < end && !Inside(Moved(at, n), frames, p)
    ensures UnknownByte(data[p])
  {
    InsideMoved(at, frames, n, p);
    assert data[p] == data[n..][p - n];
  }

  lemma InsideMoved(at: seq<nat>, frames: seq<seq<Byte>>, n: nat, p: nat)
    requires |at| == |frames| && n <= p
    ensures Inside(at, frames, p - n) ==> Inside(Moved(at, n), frames, p)
  {
    if Inside(at, frames, p - n) {
      var i :| 0 <= i < |at| && at[i] <= p - n < at[i] + |frames[i]|;
      assert Moved(at, n)[i] <= p < Moved(at, n)[i] + |frames[i]|;
    }
  }

  /** What holds behind the first n bytes holds of the whole, further on. */
  lemma ParsedBehind(z: Sizes, data: seq<Byte>, n: nat, s: Scanned, at: seq<nat>)
    requires n <= |data| && Parsed(z, data[n..], s, at)
    ensures var end := |data| - |s.tail|;
            && |at| == |s.frames| && n <= end && s.tail == data[end..] && (s.tail == [] || Beginning(z, s.tail))
            && (forall i :: 0 <= i < |at| ==> LiesAt(z, data, s.frames[i], Moved(at, n)[i], end))
            && Apart(Moved(at, n), s.frames)
            && (forall p :: n <= p < end && !Inside(Moved(at, n), s.frames, p) ==> UnknownByte(data[p]))
  {
    hide Complete, Beginning, UnknownByte, Inside, SkipsUnknown, LiesAt;
    var end := |data| - |s.tail|;
    forall i | 0 <= i < |at|
      ensures LiesAt(z, data, s.frames[i], Moved(at, n)[i], end)
    {
      LiesBehind(z, data, n, s.frames[i], at[i], end);
    }
    forall p | n <= p < end && !Inside(Moved(at, n), s.frames, p)
      ensures UnknownByte(data[p])
    {
      SkipsBehind(data, n, at, s.frames, end, p);
    }
  }

  lemma ParsedSkip(z: Sizes, data: seq<Byte>, s: Scanned, at: seq<nat>)
    requires data != [] && UnknownByte(data[0]) && Parsed(z, data[1..], s, at)
    ensures Parsed(z, data, s, Moved(at, 1))
  {
    hide Complete, Beginning, UnknownByte, Inside, LiesAt, Apart;
    ParsedBehind(z, data, 1, s, at);
  }

  lemma InsideOne(at: seq<nat>, frames: seq<seq<Byte>>, frame: seq<Byte>, p: nat)
    requires |at| == |frames|
    ensures Inside([0] + at, [frame] + frames, p) <==> p < |frame| || Inside(at, frames, p)
  {
    var at', frames' := [0] + at, [frame] + frames;
    if p < |frame| {
      assert at'[0] <= p < at'[0] + |frames'[0]|;
    }
    if Inside(at, frames, p) {
      var i :| 0 <= i < |at| && at[i] <= p < at[i] + |frames[i]|;
      assert at'[i + 1] <= p < at'[i + 1] + |frames'[i + 1]|;
    }
  }

  lemma ApartOne(at: seq<nat>, frames: seq<seq<Byte>>, frame: seq<Byte>)
    requires |at| == |frames| && Apart(at, frames) && forall i :: 0 <= i < |at| ==> |frame| <= at[i]
    ensures Apart([0] + at, [frame] + frames)
  {
  }

  lemma LiesOne(z: Sizes, data: seq<Byte>, at: seq<nat>, frames: seq<seq<Byte>>, n: nat, end: int)
    requires |at| == |frames| && n <= end <= |data| && Complete(z, data[..n])
    requires forall i :: 0 <= i < |at| ==> LiesAt(z, data, frames[i], at[i], end)
    ensures forall i :: 0 <= i < |at| + 1 ==> LiesAt(z, data, ([data[..n]] + frames)[i], ([0] + at)[i], end)
  {
    hide Complete;
    assert LiesAt(z, data, data[..n], 0, end);
  }

  lemma ParsedFrame(z: Sizes, data: seq<Byte>, n: nat, s: Scanned, at: seq<nat>)
    requires n <= |data| && Complete(z, data[..n]) && Parsed(z, data[n..], s, at)
    ensures Parsed(z, data, Scanned([data[..n]] + s.frames, s.tail), [0] + Moved(at, n))
  {
    hide Complete, Beginning, UnknownByte, Inside, Apart, LiesAt;
    ParsedBehind(z, data, n, s, at);
    var end := |data| - |s.tail|;
    LiesOne(z, data, Moved(at, n), s.frames, n, end);
    ApartOne(Moved(at, n), s.frames, data[..n]);
    forall p | 0 <= p < end && !Inside([0] + Moved(at, n), [data[..n]] + s.frames, p)
      ensures UnknownByte(data[p])
    {
      InsideOne(Moved(at, n), s.frames, data[..n], p);
    }
  }

  /** Every frame is a complete message; the frames lie in the stream in order; only unknown bytes are skipped. */
  lemma {:induction false} ScanParses(z: Sizes, data: seq<Byte>) returns (at: seq<nat>)
    requires z.Valid()
    ensures Parsed(z, data, Scan(z, data), at)
    decreases |data|
  {
    hide Parsed;
    at := [];
    if data == [] {
      NothingParsed(z, []);
    } else {
      var n := MsgSize(z, data[0]);
      if n == 0 {
        var rest := ScanParses(z, data[1..]);
        ParsedSkip(z, data, Scan(z, data[1..]), rest);
        at := Moved(rest, 1);
      } else if |data| < n {
        NothingParsed(z, data);
      } else {
        var rest := ScanParses(z, data[n..]);
        ParsedFrame(z, data, n, Scan(z, data[n..]), rest);
        at := [0] + Moved(rest, n);
      }
    }
  }

  lemma NothingParsed(z: Sizes, data: seq<Byte>)
    requires data == [] || Beginning(z, data)
    ensures Parsed(z, data, Scanned([], data), [])
  {
    assert data[0..] == data;
  }
}
