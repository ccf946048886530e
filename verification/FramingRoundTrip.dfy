/**
 The framer against an encoder: what a sender puts on the line is what the parse emits,
 whatever noise comes first.
 */
module FramingRoundTrip {
  import opened Sequences
  import opened Text
  import opened SerialFraming
  import opened StatusLine

  /** What the amplifier sends. A CSV frame has a fixed length and may hold any bytes; an RCU
      frame runs to the next sync, so its payload cannot hold one. */
  datatype Frame =
    | CsvFrame(data: seq<byte>, trailer: seq<byte>)
    | RcuFrame(data: seq<byte>)

  predicate Sendable(f: Frame) {
    match f
    case CsvFrame(data, trailer) => |data| == CSV_DATA && |trailer| == CSV_TRAILER
    case RcuFrame(data) => NoSync(data, 0)
  }

  function Encode(f: Frame): seq<byte> {
    match f
    case CsvFrame(data, trailer) => Header(CSV_MARK) + data + trailer
    case RcuFrame(data) => Header(RCU_MARK) + data
  }

  function Wire(fs: seq<Frame>): seq<byte> {
    if fs == [] then [] else Encode(fs[0]) + Wire(fs[1..])
  }

  function StripSync(b: seq<byte>): (r: seq<byte>)
    ensures |r| <= |b| && r == b[..|r|]
    ensures forall i :: |r| <= i < |b| ==> b[i] == SYNC
    ensures r != [] ==> r[|r| - 1] != SYNC
  {
    if b != [] && b[|b| - 1] == SYNC then StripSync(b[..|b| - 1]) else b
  }

  /** A frame as it comes out when another frame follows it: an RCU payload loses exactly the
      sync-valued bytes at its end, which the next frame's sync swallows. */
  function Decoded(f: Frame): Piece {
    match f
    case CsvFrame(data, trailer) => Csv(data, trailer)
    case RcuFrame(data) => Rcu(StripSync(data))
  }

  function DecodedAll(fs: seq<Frame>): seq<Piece> {
    if fs == [] then [] else [Decoded(fs[0])] + DecodedAll(fs[1..])
  }

  function FramesOf(ps: seq<Piece>): seq<Piece> {
    if ps == [] then []
    else (if ps[0].Noise? then [] else [ps[0]]) + FramesOf(ps[1..])
  }

  /** The line carries a frame from here on. */
  predicate StartsFrame(b: seq<byte>) {
    |b| >= 4 && SyncAt(b, 0) && (b[3] == CSV_MARK || b[3] == RCU_MARK)
  }

  lemma WireStartsFrame(fs: seq<Frame>)
    requires fs != []
    ensures StartsFrame(Wire(fs))
  {
    assert Wire(fs)[..4] == Encode(fs[0])[..4];
  }

  /** Noise in front of a frame is skipped, even noise ending in sync bytes. */
  lemma {:induction false} NoiseIsSkipped(noise: seq<byte>, line: seq<byte>)
    requires NoSync(noise, 0) && StartsFrame(line)
    ensures FramesOf(Parse(noise + line).pieces) == FramesOf(Parse(line).pieces)
    ensures Parse(noise + line).rest == Parse(line).rest
  {
    var b := noise + line;
    if noise == [] {
      assert b == line;
    } else {
      assert Next(b) == Emit(Noise(b[0]), 1) by {
        if SyncAt(b, 0) {
          assert !SyncAt(noise, 0);
          assert b[3] == SYNC;
        }
      }
      DropOfSum(noise, line, 1);
      forall i | 0 <= i < |noise| - 1
        ensures !SyncAt(noise[1..], i)
      {
        assert !SyncAt(noise, i + 1);
      }
      NoiseIsSkipped(noise[1..], line);
      TailOfCons(Noise(b[0]), Parse(b[1..]).pieces);
    }
  }

  lemma SyncAfterPayload(data: seq<byte>, line: seq<byte>)
    requires StartsFrame(line)
    ensures SyncAt(Header(RCU_MARK) + data + line, 4 + |StripSync(data)|)
  {
    var b, n := Header(RCU_MARK) + data + line, |data|;
    assert forall i :: |StripSync(data)| <= i < n ==> b[4 + i] == data[i] == SYNC;
    assert b[4 + n] == line[0] && b[4 + n + 1] == line[1] && b[4 + n + 2] == line[2];
  }

  lemma NoSyncInPayload(data: seq<byte>, line: seq<byte>, i: nat)
    requires NoSync(data, 0) && i < |StripSync(data)|
    ensures !SyncAt(Header(RCU_MARK) + data + line, 4 + i)
  {
    var b, last := Header(RCU_MARK) + data + line, |StripSync(data)| - 1;
    assert b[4 + last] == data[last] != SYNC;
    assert !SyncAt(data, i);
    if i + 2 < last {
      assert b[4 + i] == data[i] && b[4 + i + 1] == data[i + 1] && b[4 + i + 2] == data[i + 2];
    }
  }

  /** An RCU payload followed by a frame ends at the first byte of the run of sync bytes the
      two have between them. */
  lemma RcuEnds(data: seq<byte>, line: seq<byte>)
    requires NoSync(data, 0) && StartsFrame(line)
    ensures FirstSync(Header(RCU_MARK) + data + line, 4) == Some(4 + |StripSync(data)|)
  {
    var b, end := Header(RCU_MARK) + data + line, 4 + |StripSync(data)|;
    SyncAfterPayload(data, line);
    forall i | 4 <= i < end
      ensures !SyncAt(b, i)
    {
      NoSyncInPayload(data, line, i - 4);
    }
    FirstSyncIs(b, 4, end);
  }

  lemma FirstSyncIs(b: seq<byte>, start: nat, end: nat)
    requires start <= end && SyncAt(b, end) && forall i :: start <= i < end ==> !SyncAt(b, i)
    ensures FirstSync(b, start) == Some(end)
  {
  }

  lemma CsvComesOut(f: Frame, line: seq<byte>)
    requires Sendable(f) && f.CsvFrame?
    ensures Next(Encode(f) + line) == Emit(Decoded(f), |Encode(f)|)
    ensures (Encode(f) + line)[|Encode(f)|..] == line
  {
    var b := Encode(f) + line;
    assert b[..4] == Header(CSV_MARK);
    assert SyncAt(b, 0);
    assert b[4..4 + CSV_DATA] == f.data && b[4 + CSV_DATA..CSV_TOTAL] == f.trailer;
  }

  lemma RcuRemainder(data: seq<byte>, line: seq<byte>, n: nat)
    requires n <= |data|
    ensures (Header(RCU_MARK) + data + line)[4 + n..] == data[n..] + line
    ensures (Header(RCU_MARK) + data + line)[4..4 + n] == data[..n]
  {
    DropOfSum(Header(RCU_MARK) + data, line, 4 + n);
    assert (Header(RCU_MARK) + data)[4 + n..] == data[n..];
  }

  lemma RcuComesOut(f: Frame, line: seq<byte>)
    requires Sendable(f) && f.RcuFrame? && StartsFrame(line)
    ensures var n := |StripSync(f.data)|;
            Next(Encode(f) + line) == Emit(Decoded(f), 4 + n) &&
            4 + n <= |Encode(f) + line| &&
            (Encode(f) + line)[4 + n..] == f.data[n..] + line
  {
    var b := Encode(f) + line;
    RcuEnds(f.data, line);
    RcuRemainder(f.data, line, |StripSync(f.data)|);
    assert b[0] == b[1] == b[2] == SYNC && b[3] == RCU_MARK;
  }

  /** One frame in front of another is emitted and the parse goes on at the other. */
  lemma FrameComesOut(f: Frame, line: seq<byte>)
    requires Sendable(f) && StartsFrame(line)
    ensures FramesOf(Parse(Encode(f) + line).pieces) == [Decoded(f)] + FramesOf(Parse(line).pieces)
    ensures Parse(Encode(f) + line).rest == Parse(line).rest
  {
    var b := Encode(f) + line;
    if f.CsvFrame? {
      CsvComesOut(f, line);
      TailOfCons(Decoded(f), Parse(line).pieces);
    } else {
      RcuComesOut(f, line);
      var n := |StripSync(f.data)|;
      var ends := f.data[n..];
      forall i | 0 <= i < |ends|
        ensures !SyncAt(ends, i)
      {
        assert !SyncAt(f.data, n + i);
      }
      NoiseIsSkipped(ends, line);
      TailOfCons(Decoded(f), Parse(ends + line).pieces);
    }
  }

  predicate EndsOpen(fs: seq<Frame>) {
    fs != [] && fs[|fs| - 1].RcuFrame?
  }

  lemma ClosedFrameComesOut(f: Frame)
    requires Sendable(f) && f.CsvFrame?
    ensures Parse(Encode(f)) == Parsed([Decoded(f)], [])
  {
    CsvComesOut(f, []);
    assert Encode(f) + [] == Encode(f);
    assert Parse([]) == Parsed([], []);
  }

  /** Everything but an open last RCU frame comes out; the open one stays, whole. */
  lemma {:induction false} WireComesOut(fs: seq<Frame>)
    requires fs != [] && forall f :: f in fs ==> Sendable(f)
    ensures EndsOpen(fs) ==>
              FramesOf(Parse(Wire(fs)).pieces) == DecodedAll(fs[..|fs| - 1]) &&
              Parse(Wire(fs)).rest == Encode(fs[|fs| - 1])
    ensures !EndsOpen(fs) ==>
              FramesOf(Parse(Wire(fs)).pieces) == DecodedAll(fs) && Parse(Wire(fs)).rest == []
  {
    hide Parse, Encode;
    var f, others := fs[0], fs[1..];
    assert Sendable(f);
    if others == [] {
      assert Wire(fs) == Encode(f) + [] == Encode(f);
      if f.CsvFrame? {
        ClosedFrameComesOut(f);
      } else {
        OpenFrameStays(f);
      }
    } else {
      WireStartsFrame(others);
      FrameComesOut(f, Wire(others));
      WireComesOut(others);
      assert others[..|others| - 1] == fs[..|fs| - 1][1..];
    }
  }

  lemma OpenFrameIsOpen(data: seq<byte>)
    requires NoSync(data, 0)
    ensures OpenRcu(Header(RCU_MARK) + data)
  {
    var b := Header(RCU_MARK) + data;
    forall i | 4 <= i < |b|
      ensures !SyncAt(b, i)
    {
      assert !SyncAt(data, i - 4);
    }
  }

  lemma OpenFrameStays(f: Frame)
    requires Sendable(f) && f.RcuFrame?
    ensures Parse(Encode(f)) == Parsed([], Encode(f))
    ensures Feed(Encode(f), Quiet) == Parsed([Rcu(f.data)], [])
  {
    hide Parse;
    OpenFrameIsOpen(f.data);
    NormalIffIdle(Encode(f));
    DropOfSum(Header(RCU_MARK), f.data, 4);
    assert Encode(f)[4..] == f.data;
  }

  /** The whole of what a line carries: the closed frames from the parse, and, when the line
      ends in an open RCU frame, that frame unshortened from the quiet flush. */
  function Delivered(fs: seq<Frame>): seq<Piece> {
    if EndsOpen(fs) then DecodedAll(fs[..|fs| - 1]) + [Rcu(fs[|fs| - 1].data)] else DecodedAll(fs)
  }

  /** Noise without a sync, then any frames: exactly those frames come out, in order, once
      the line has gone quiet, and nothing stays behind. */
  lemma RoundTrip(noise: seq<byte>, fs: seq<Frame>)
    requires NoSync(noise, 0) && fs != []
    requires forall f :: f in fs ==> Sendable(f)
    ensures var parsed := Parse(noise + Wire(fs));
            var flushed := Feed(parsed.rest, Quiet);
            FramesOf(parsed.pieces) + flushed.pieces == Delivered(fs) && flushed.rest == []
  {
    WireStartsFrame(fs);
    NoiseIsSkipped(noise, Wire(fs));
    WireComesOut(fs);
    if EndsOpen(fs) {
      OpenFrameStays(fs[|fs| - 1]);
    }
  }

  lemma {:induction false} FeedAllAppends(buf: seq<byte>, es: seq<Input>, e: Input)
    ensures var before := FeedAll(buf, es);
            FeedAll(buf, es + [e]) ==
            Parsed(before.pieces + Feed(before.rest, e).pieces, Feed(before.rest, e).rest)
    decreases |es|
  {
    if es == [] {
      assert es + [e] == [e];
      var only := Feed(buf, e);
      assert FeedAll(only.rest, [e][1..]) == Parsed([], only.rest);
      assert only.pieces + [] == only.pieces && [] + only.pieces == only.pieces;
    } else {
      var first := Feed(buf, es[0]);
      DropOfSum(es, [e], 1);
      FeedAllAppends(first.rest, es[1..], e);
      var later := FeedAll(first.rest, es[1..]);
      SumAssociates(first.pieces, later.pieces, Feed(later.rest, e).pieces);
    }
  }

  lemma {:induction false} FramesOfAppends(ps: seq<Piece>, qs: seq<Piece>)
    ensures FramesOf(ps + qs) == FramesOf(ps) + FramesOf(qs)
  {
    if ps == [] {
      assert ps + qs == qs;
    } else {
      DropOfSum(ps, qs, 1);
      FramesOfAppends(ps[1..], qs);
    }
  }

  lemma QuietEmitsFrames(buf: seq<byte>)
    ensures FramesOf(Feed(buf, Quiet).pieces) == Feed(buf, Quiet).pieces
  {
  }

  /** The same through the handler, for every way the reader cuts the line into chunks. */
  lemma RoundTripInChunks(noise: seq<byte>, fs: seq<Frame>, chunks: seq<seq<byte>>)
    requires NoSync(noise, 0) && fs != []
    requires forall f :: f in fs ==> Sendable(f)
    requires Concat(chunks) == noise + Wire(fs) && NoOverflow([], chunks)
    ensures var all := FeedAll([], AsInputs(chunks) + [Quiet]);
            FramesOf(all.pieces) == Delivered(fs) && all.rest == []
  {
    RoundTrip(noise, fs);
    WithoutOverflow([], chunks);
    assert [] + Concat(chunks) == Concat(chunks);
    FeedAllAppends([], AsInputs(chunks), Quiet);
    var parsed := Parse(noise + Wire(fs));
    FramesOfAppends(parsed.pieces, Feed(parsed.rest, Quiet).pieces);
    QuietEmitsFrames(parsed.rest);
  }

  /** A status line sent as a CSV frame, after any sync-free noise and cut into any chunks,
      reaches the decoder as the line that was sent. */
  lemma StatusFrameRoundTrip(noise: seq<byte>, fields: seq<string>, trailer: seq<byte>, chunks: seq<seq<byte>>)
    requires NoSync(noise, 0) && |trailer| == CSV_TRAILER
    requires |fields| >= 1 && AllFree(fields, ',') && |Join(fields, ',')| == CSV_DATA
    requires forall i :: 0 <= i < CSV_DATA ==> Join(fields, ',')[i] as int < 128
    requires Concat(chunks) == noise + Encode(CsvFrame(Ascii(Join(fields, ',')), trailer))
    requires NoOverflow([], chunks)
    ensures var out := FramesOf(FeedAll([], AsInputs(chunks) + [Quiet]).pieces);
            |out| == 1 && out[0].Csv? && out[0].trailer == trailer &&
            Decode(out[0].payload) == Join(fields, ',')
  {
    hide ParseStatus, Parse, FeedAll, Join;
    var f := CsvFrame(Ascii(Join(fields, ',')), trailer);
    assert Wire([f]) == Encode(f) + [] == Encode(f);
    RoundTripInChunks(noise, [f], chunks);
    assert DecodedAll([f]) == [Decoded(f)];
  }
}
