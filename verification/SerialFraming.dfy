/**
 The byte stream of spe/serial_handler.py: what one pass over a buffer emits and what it
 keeps. `Parse` is the reference form, one byte at a time; the handler's own loop (bulk
 deletes after a search) is proved equal to it in SerialHandler.dfy.
 */
module SerialFraming {
  import opened Sequences
  import opened Text

  type byte = b: int | 0 <= b < 256

  const SYNC: byte := 0xAA
  const CSV_MARK: byte := 0x43
  const RCU_MARK: byte := 0x6A
  const CSV_DATA := 67
  const CSV_TRAILER := 4
  const CSV_TOTAL := 75
  const MAX_BUFFER := 4096
  const READ_SIZE := 256

  /** Where a byte of the stream can end up, other than still in the buffer. `Dropped` is
      what an overflow or a reopened port throws away. */
  datatype Piece =
    | Noise(b: byte)
    | Csv(payload: seq<byte>, trailer: seq<byte>)
    | Rcu(payload: seq<byte>)
    | Dropped(bytes: seq<byte>)

  datatype Parsed = Parsed(pieces: seq<Piece>, rest: seq<byte>)

  predicate SyncAt(b: seq<byte>, i: int) {
    0 <= i && i + 2 < |b| && b[i] == SYNC && b[i + 1] == SYNC && b[i + 2] == SYNC
  }

  predicate NoSync(b: seq<byte>, start: int) {
    forall i :: start <= i < |b| ==> !SyncAt(b, i)
  }

  /** First sync at or after `start`. */
  function FirstSync(b: seq<byte>, start: nat): (r: Option<nat>)
    ensures r.None? ==> NoSync(b, start)
    ensures r.Some? ==> start <= r.value && SyncAt(b, r.value)
    ensures r.Some? ==> forall i :: start <= i < r.value ==> !SyncAt(b, i)
    decreases |b| - start
  {
    if start + 2 >= |b| then None
    else if SyncAt(b, start) then Some(start)
    else FirstSync(b, start + 1)
  }

  function Header(mark: byte): seq<byte> {
    [SYNC, SYNC, SYNC, mark]
  }

  function Bytes(p: Piece): seq<byte> {
    match p
    case Noise(b) => [b]
    case Csv(payload, trailer) => Header(CSV_MARK) + payload + trailer
    case Rcu(payload) => Header(RCU_MARK) + payload
    case Dropped(bytes) => bytes
  }

  function Flatten(ps: seq<Piece>): seq<byte> {
    if ps == [] then [] else Bytes(ps[0]) + Flatten(ps[1..])
  }

  datatype Advance = Stuck | Emit(p: Piece, n: nat)

  /** The next piece at the front of a buffer and how many bytes it takes, if the buffer
      already decides it. */
  function Next(b: seq<byte>): (r: Advance)
    ensures r.Emit? ==> 0 < r.n <= |b| && Bytes(r.p) == b[..r.n] && !r.p.Dropped?
  {
    if |b| < 4 then Stuck
    else if !SyncAt(b, 0) then Emit(Noise(b[0]), 1)
    else if b[3] == CSV_MARK then
      if |b| < CSV_TOTAL then Stuck
      else Emit(Csv(b[4..4 + CSV_DATA], b[4 + CSV_DATA..CSV_TOTAL]), CSV_TOTAL)
    else if b[3] == RCU_MARK then
      match FirstSync(b, 4)
      case None => Stuck
      case Some(j) => Emit(Rcu(b[4..j]), j)
    else Emit(Noise(b[0]), 1)
  }

  /** One-shot parse of a whole stream. */
  function Parse(b: seq<byte>): Parsed
    decreases |b|
  {
    match Next(b)
    case Stuck => Parsed([], b)
    case Emit(p, n) =>
      var later := Parse(b[n..]);
      Parsed([p] + later.pieces, later.rest)
  }

  // ------------------------------------------------------------ chunking invariance

  lemma FirstSyncGrows(a: seq<byte>, b: seq<byte>, start: nat)
    requires FirstSync(a, start).Some?
    ensures FirstSync(a + b, start) == FirstSync(a, start)
  {
    var j, k := FirstSync(a, start).value, FirstSync(a + b, start);
    assert SyncAt(a + b, j);
    if k.None? || k.value > j {
      assert false;
    } else if k.value < j {
      assert SyncAt(a, k.value);
    }
  }

  /** More bytes never change a decision already taken. */
  lemma NextGrows(a: seq<byte>, b: seq<byte>)
    requires Next(a).Emit?
    ensures Next(a + b) == Next(a)
  {
    assert SyncAt(a + b, 0) == SyncAt(a, 0);
    if SyncAt(a, 0) && a[3] == RCU_MARK {
      FirstSyncGrows(a, b, 4);
      var j := FirstSync(a, 4).value;
      assert (a + b)[4..j] == a[4..j];
    }
  }

  /** Parsing what is left of `a` followed by `b` continues the parse of `a + b`. */
  lemma {:induction false} ParseSplits(a: seq<byte>, b: seq<byte>)
    ensures var first := Parse(a);
            var second := Parse(first.rest + b);
            Parse(a + b) == Parsed(first.pieces + second.pieces, second.rest)
    decreases |a|
  {
    match Next(a)
    case Stuck =>
      assert [] + Parse(a + b).pieces == Parse(a + b).pieces;
    case Emit(p, n) =>
      NextGrows(a, b);
      ParseSplits(a[n..], b);
      DropOfSum(a, b, n);
      var first := Parse(a[n..]);
      SumAssociates([p], first.pieces, Parse(first.rest + b).pieces);
  }

  // ------------------------------------------------------------ normal form

  predicate Short(b: seq<byte>) {
    |b| <= 3
  }

  predicate PartialCsv(b: seq<byte>) {
    4 <= |b| < CSV_TOTAL && SyncAt(b, 0) && b[3] == CSV_MARK
  }

  predicate OpenRcu(b: seq<byte>) {
    4 <= |b| && SyncAt(b, 0) && b[3] == RCU_MARK && NoSync(b, 4)
  }

  /** A parse cannot be continued exactly when the buffer is one of these three. */
  predicate Normal(b: seq<byte>) {
    Short(b) || PartialCsv(b) || OpenRcu(b)
  }

  lemma NormalIffIdle(b: seq<byte>)
    ensures Normal(b) <==> Parse(b) == Parsed([], b)
    ensures Normal(b) <==> Parse(b).pieces == []
  {
    if OpenRcu(b) {
      assert FirstSync(b, 4).None?;
    }
  }

  /** Whatever a parse leaves is idle: parsing it again emits nothing. */
  lemma {:induction false} ParseIdle(b: seq<byte>)
    ensures Parse(Parse(b).rest) == Parsed([], Parse(b).rest)
    ensures Normal(Parse(b).rest)
    decreases |b|
  {
    match Next(b)
    case Stuck => NormalIffIdle(b);
    case Emit(p, n) => ParseIdle(b[n..]);
  }

  // ------------------------------------------------------------ conservation

  /** Every byte of a parsed buffer lands, in order, in one piece or stays. */
  lemma {:induction false} ParseConserves(b: seq<byte>)
    ensures Flatten(Parse(b).pieces) + Parse(b).rest == b
    ensures forall p :: p in Parse(b).pieces ==> !p.Dropped?
    decreases |b|
  {
    match Next(b)
    case Stuck =>
    case Emit(p, n) =>
      var later := Parse(b[n..]);
      ParseConserves(b[n..]);
      FlattenCons(p, later.pieces);
      SumAssociates(b[..n], Flatten(later.pieces), later.rest);
      TakeDrop(b, n);
  }

  lemma FlattenCons(p: Piece, ps: seq<Piece>)
    ensures Flatten([p] + ps) == Bytes(p) + Flatten(ps)
  {
    TailOfCons(p, ps);
  }

  lemma {:induction false} FlattenAppends(ps: seq<Piece>, qs: seq<Piece>)
    ensures Flatten(ps + qs) == Flatten(ps) + Flatten(qs)
  {
    if ps == [] {
      assert ps + qs == qs;
    } else {
      DropOfSum(ps, qs, 1);
      FlattenAppends(ps[1..], qs);
      SumAssociates(Bytes(ps[0]), Flatten(ps[1..]), Flatten(qs));
    }
  }

  // ------------------------------------------------------------ the handler's input events

  /** What can happen to the receive buffer: a chunk arrives, the quiet timer fires, or the
      port is opened again. */
  datatype Input = Chunk(bytes: seq<byte>) | Quiet | Reopen

  function Feed(buf: seq<byte>, e: Input): Parsed {
    match e
    case Chunk(bytes) =>
      if bytes == [] then Parsed([], buf)
      else if |buf + bytes| > MAX_BUFFER then Parsed([Dropped(buf + bytes)], [])
      else Parse(buf + bytes)
    case Quiet =>
      if |buf| >= 4 && SyncAt(buf, 0) && buf[3] == RCU_MARK then Parsed([Rcu(buf[4..])], [])
      else Parsed([], buf)
    case Reopen =>
      Parsed([Dropped(buf)], [])
  }

  function FeedAll(buf: seq<byte>, es: seq<Input>): Parsed
    decreases |es|
  {
    if es == [] then Parsed([], buf)
    else
      var first := Feed(buf, es[0]);
      var later := FeedAll(first.rest, es[1..]);
      Parsed(first.pieces + later.pieces, later.rest)
  }

  function Arrived(e: Input): seq<byte> {
    if e.Chunk? then e.bytes else []
  }

  function Received(es: seq<Input>): seq<byte> {
    if es == [] then [] else Arrived(es[0]) + Received(es[1..])
  }

  lemma FlattenOne(p: Piece)
    ensures Flatten([p]) == Bytes(p)
  {
  }

  lemma FeedKeeps(buf: seq<byte>, e: Input)
    requires Normal(buf) && |buf| <= MAX_BUFFER
    ensures Normal(Feed(buf, e).rest) && |Feed(buf, e).rest| <= MAX_BUFFER
    ensures Flatten(Feed(buf, e).pieces) + Feed(buf, e).rest == buf + Arrived(e)
  {
    match e
    case Chunk(bytes) =>
      ParseIdle(buf + bytes);
      ParseConserves(buf + bytes);
      FlattenOne(Dropped(buf + bytes));
    case Quiet =>
      if |buf| >= 4 && SyncAt(buf, 0) && buf[3] == RCU_MARK {
        FlattenOne(Rcu(buf[4..]));
        assert buf[..4] == Header(RCU_MARK);
        TakeDrop(buf, 4);
      }
    case Reopen =>
      FlattenOne(Dropped(buf));
  }

  /** Over any run of chunks, quiet flushes, overflows and reopened ports no byte is lost,
      duplicated or reordered, and the buffer stays small and idle. */
  lemma {:induction false} FramerConserves(buf: seq<byte>, es: seq<Input>)
    requires Normal(buf) && |buf| <= MAX_BUFFER
    ensures Flatten(FeedAll(buf, es).pieces) + FeedAll(buf, es).rest == buf + Received(es)
    ensures Normal(FeedAll(buf, es).rest) && |FeedAll(buf, es).rest| <= MAX_BUFFER
    decreases |es|
  {
    if es != [] {
      var first := Feed(buf, es[0]);
      var later := FeedAll(first.rest, es[1..]);
      FeedKeeps(buf, es[0]);
      FramerConserves(first.rest, es[1..]);
      FlattenAppends(first.pieces, later.pieces);
      SumAssociates(Flatten(first.pieces), Flatten(later.pieces), later.rest);
      SumAssociates(Flatten(first.pieces), first.rest, Received(es[1..]));
      SumAssociates(buf, Arrived(es[0]), Received(es[1..]));
    }
  }

  // ------------------------------------------------------------ any chunking

  function AsInputs(chunks: seq<seq<byte>>): (es: seq<Input>)
    ensures |es| == |chunks|
  {
    if chunks == [] then [] else [Chunk(chunks[0])] + AsInputs(chunks[1..])
  }

  /** No chunk arrives when the buffer has no room for it. */
  predicate NoOverflow(buf: seq<byte>, chunks: seq<seq<byte>>)
    decreases |chunks|
  {
    chunks == [] ||
    (|buf| + |chunks[0]| <= MAX_BUFFER && NoOverflow(Feed(buf, Chunk(chunks[0])).rest, chunks[1..]))
  }

  predicate Drops(ps: seq<Piece>) {
    exists p :: p in ps && p.Dropped?
  }

  lemma {:induction false} WithoutOverflow(buf: seq<byte>, chunks: seq<seq<byte>>)
    requires Normal(buf) && NoOverflow(buf, chunks)
    ensures FeedAll(buf, AsInputs(chunks)) == Parse(buf + Concat(chunks))
    decreases |chunks|
  {
    NormalIffIdle(buf);
    if chunks == [] {
      assert buf + Concat(chunks) == buf;
    } else {
      var whole, more := buf + chunks[0], Concat(chunks[1..]);
      assert chunks[0] == [] ==> whole == buf;
      ParseIdle(whole);
      TailOfCons(Chunk(chunks[0]), AsInputs(chunks[1..]));
      WithoutOverflow(Parse(whole).rest, chunks[1..]);
      ParseSplits(whole, more);
      SumAssociates(buf, chunks[0], more);
    }
  }

  lemma {:induction false} OverflowDrops(buf: seq<byte>, chunks: seq<seq<byte>>)
    requires |buf| <= MAX_BUFFER && !NoOverflow(buf, chunks)
    ensures Drops(FeedAll(buf, AsInputs(chunks)).pieces)
    decreases |chunks|
  {
    var first := Feed(buf, Chunk(chunks[0]));
    TailOfCons(Chunk(chunks[0]), AsInputs(chunks[1..]));
    var later := FeedAll(first.rest, AsInputs(chunks[1..])).pieces;
    if |buf| + |chunks[0]| > MAX_BUFFER {
      assert (first.pieces + later)[0] == Dropped(buf + chunks[0]);
    } else {
      ParseConserves(buf + chunks[0]);
      OverflowDrops(first.rest, chunks[1..]);
      var p :| p in later && p.Dropped?;
      assert p in first.pieces + later;
    }
  }

  /** A stream cut into chunks in any way emits exactly what the one-shot parse emits, noise
      included, and leaves the same buffer; this holds just when no chunk overflows. */
  lemma ChunkingInvariance(buf: seq<byte>, chunks: seq<seq<byte>>)
    requires Normal(buf) && |buf| <= MAX_BUFFER
    ensures FeedAll(buf, AsInputs(chunks)) == Parse(buf + Concat(chunks)) <==> NoOverflow(buf, chunks)
  {
    if NoOverflow(buf, chunks) {
      WithoutOverflow(buf, chunks);
    } else {
      OverflowDrops(buf, chunks);
      ParseConserves(buf + Concat(chunks));
    }
  }

  /** With reads of at most 256 bytes only an open RCU frame can lead to an overflow. */
  lemma OnlyOpenRcuOverflows(buf: seq<byte>, bytes: seq<byte>)
    requires Normal(buf) && |bytes| <= READ_SIZE
    requires Drops(Feed(buf, Chunk(bytes)).pieces)
    ensures OpenRcu(buf) && |buf| > MAX_BUFFER - READ_SIZE
  {
    ParseConserves(buf + bytes);
  }

  // ------------------------------------------------------------ skipping noise

  function Noises(b: seq<byte>): (ps: seq<Piece>)
    ensures |ps| == |b|
  {
    if b == [] then [] else [Noise(b[0])] + Noises(b[1..])
  }

  lemma SyncAtTail(b: seq<byte>, i: nat)
    requires |b| >= 1
    ensures SyncAt(b[1..], i) <==> SyncAt(b, i + 1)
  {
  }

  lemma ParseSkipOne(b: seq<byte>)
    requires |b| >= 4 && !SyncAt(b, 0)
    ensures Parse(b) == Parsed([Noise(b[0])] + Parse(b[1..]).pieces, Parse(b[1..]).rest)
  {
  }

  /** Everything before the first sync is noise. */
  lemma {:induction false} ParseSkips(b: seq<byte>, n: nat)
    requires n <= |b| && (forall i :: 0 <= i < n ==> !SyncAt(b, i))
    requires n <= |b| - 3 || SyncAt(b, n)
    ensures Parse(b) == Parsed(Noises(b[..n]) + Parse(b[n..]).pieces, Parse(b[n..]).rest)
    decreases n
  {
    if n == 0 {
      assert b[0..] == b;
      assert Noises(b[..0]) + Parse(b).pieces == Parse(b).pieces;
    } else {
      SyncIsLong(b, n);
      hide SyncAt, Parse;
      assert !SyncAt(b, 0);
      var c := b[1..];
      forall i | 0 <= i < n - 1
        ensures !SyncAt(c, i)
      {
        SyncAtTail(b, i);
        assert !SyncAt(b, i + 1);
      }
      SyncAtTail(b, n - 1);
      ParseSkips(c, n - 1);
      ParseSkipOne(b);
      assert b[..n][1..] == c[..n - 1] && c[n - 1..] == b[n..];
      SumAssociates([Noise(b[0])], Noises(c[..n - 1]), Parse(b[n..]).pieces);
    }
  }

  lemma SyncIsLong(b: seq<byte>, i: nat)
    ensures SyncAt(b, i) ==> i + 3 <= |b|
  {
  }
}
