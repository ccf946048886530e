/**
 The receive side of spe/serial_handler.py as the object it is: one buffer that is extended,
 searched, sliced and cleared in place, and the fields each extracted frame updates.
 */
module SerialHandler {
  import opened Sequences
  import opened Text
  import opened SerialFraming
  import opened StatusLine
  import opened Meter

  /** What the handler knows about the amplifier. */
  datatype Amp = Amp(unit: char, tuneActive: bool, meters: Meters, state: AmplifierState)

  /** A piece of the stream and the time it was taken from the buffer. */
  datatype Timed = Timed(piece: Piece, at: real)

  /** The TUNE LED is lit when bit 6 of payload byte 4 is clear. */
  predicate LedLit(payload: seq<byte>)
    requires |payload| > 4
  {
    (payload[4] / 64) % 2 == 0
  }

  function Watts(s: AmplifierState): real {
    match ParseDecimal(s.pOut)
    case Some(w) => w
    case None => 0.0
  }

  function Reading(s: AmplifierState, at: real): Sample {
    Sample(Context(s.opStatus, s.txStatus), Watts(s), at)
  }

  function Status(p: Piece): Option<AmplifierState> {
    if p.Csv? then ParseStatus(Decode(p.payload)) else None
  }

  /** The state published for an accepted status frame. */
  function Stamped(a: Amp, s: AmplifierState, at: real): AmplifierState {
    var m := Update(a.meters, Reading(s, at));
    s.(temperatureUnit := a.unit, tuneActive := a.tuneActive, pOutAvg := m.avg, pOutPeak := m.peak)
  }

  function Absorb(a: Amp, t: Timed): Amp {
    if t.piece.Rcu? && |t.piece.payload| > 4 then a.(tuneActive := LedLit(t.piece.payload))
    else
      match Status(t.piece)
      case None => a
      case Some(s) => a.(meters := Update(a.meters, Reading(s, t.at)), state := Stamped(a, s, t.at))
  }

  function AbsorbAll(a: Amp, ts: seq<Timed>): Amp {
    if ts == [] then a else Absorb(AbsorbAll(a, ts[..|ts| - 1]), ts[|ts| - 1])
  }

  /** The states handed to the update callback, in order. */
  function Published(a: Amp, ts: seq<Timed>): seq<AmplifierState> {
    if ts == [] then []
    else
      var front, last := ts[..|ts| - 1], ts[|ts| - 1];
      Published(a, front) + if Status(last.piece).Some? then [Absorb(AbsorbAll(a, front), last).state] else []
  }

  function Pieces(ts: seq<Timed>): (ps: seq<Piece>)
    ensures |ps| == |ts|
    ensures forall i :: 0 <= i < |ts| ==> ps[i] == ts[i].piece
  {
    if ts == [] then [] else Pieces(ts[..|ts| - 1]) + [ts[|ts| - 1].piece]
  }

  predicate Ordered(ts: seq<Timed>) {
    forall i, j :: 0 <= i <= j < |ts| ==> ts[i].at <= ts[j].at
  }

  // ------------------------------------------------------------ what a history determines

  function Samples(ts: seq<Timed>): seq<Sample> {
    if ts == [] then []
    else
      var last := ts[|ts| - 1];
      Samples(ts[..|ts| - 1]) +
      match Status(last.piece) { case None => [] case Some(s) => [Reading(s, last.at)] }
  }

  /** The meters depend on nothing but the accepted status frames, in order. */
  lemma {:induction false} MetersOfHistory(a: Amp, ts: seq<Timed>)
    ensures AbsorbAll(a, ts).meters == Run(a.meters, Samples(ts))
    ensures AbsorbAll(a, ts).unit == a.unit
  {
    if ts != [] {
      var front, last := ts[..|ts| - 1], ts[|ts| - 1];
      MetersOfHistory(a, front);
      match Status(last.piece)
      case None => assert Samples(ts) == Samples(front);
      case Some(s) => FrontOfSnoc(Samples(front), Reading(s, last.at));
    }
  }

  /** The meters see time in order, as their laws ask. */
  lemma {:induction false} SamplesInOrder(ts: seq<Timed>)
    requires Ordered(ts)
    ensures forall i, j :: 0 <= i <= j < |Samples(ts)| ==> Samples(ts)[i].at <= Samples(ts)[j].at
    ensures forall i :: 0 <= i < |Samples(ts)| ==> Samples(ts)[i].at <= ts[|ts| - 1].at
  {
    if ts != [] {
      var front := ts[..|ts| - 1];
      hide Status, Watts;
      SamplesInOrder(front);
      if front != [] {
        assert ts[|front| - 1].at <= ts[|ts| - 1].at;
      }
    }
  }

  predicate CarriesLed(p: Piece) {
    p.Rcu? && |p.payload| > 4
  }

  /** The LED flag is the one in the latest RCU frame long enough to carry it. */
  lemma {:induction false} LedOfHistory(a: Amp, ts: seq<Timed>, k: int)
    requires -1 <= k < |ts| && (k >= 0 ==> CarriesLed(ts[k].piece))
    requires forall i :: k < i < |ts| ==> !CarriesLed(ts[i].piece)
    ensures AbsorbAll(a, ts).tuneActive == if k >= 0 then LedLit(ts[k].piece.payload) else a.tuneActive
  {
    if ts != [] && k < |ts| - 1 {
      LedOfHistory(a, ts[..|ts| - 1], k);
    }
  }

  /** The LED flag is bit 6 of the byte, 64 in value: the LED is lit when the bit is clear. */
  lemma LedIsBitSix(payload: seq<byte>)
    requires |payload| > 4
    ensures LedLit(payload) <==> payload[4] % 128 < 64
  {
  }

  /** A sample takes its context from the status and its watts from the output power, digits as
      the number they write and what is no number as nothing. */
  lemma ReadingIsPower(s: AmplifierState, at: real)
    ensures var r := Reading(s, at);
            && r.key == Context(s.opStatus, s.txStatus) && r.at == at
            && (s.pOut != "" && Digits(s.pOut) ==> r.raw == NatValue(s.pOut) as real)
            && (ParseDecimal(s.pOut) == None ==> r.raw == 0.0)
  {
    hide ParseDecimal, Digits;
    if s.pOut != "" && Digits(s.pOut) {
      ParseDigits(s.pOut);
    }
  }

  /** How many states the first `k` pieces have published. */
  function PublishedBefore(a: Amp, ts: seq<Timed>, k: nat): nat
    requires k <= |ts|
  {
    |Published(a, ts[..k])|
  }

  lemma {:induction false} PublishedGrows(a: Amp, ts: seq<Timed>, k: nat)
    requires k <= |ts|
    ensures Published(a, ts[..k]) <= Published(a, ts)
    decreases |ts|
  {
    hide AbsorbAll, Absorb, Status;
    if k < |ts| {
      PublishedGrows(a, ts[..|ts| - 1], k);
      assert ts[..|ts| - 1][..k] == ts[..k];
    } else {
      assert ts[..k] == ts;
    }
  }

  lemma StatusOf(p: Piece)
    ensures Status(p) == if p.Csv? then ParseStatus(Decode(p.payload)) else None
  {
  }

  /** What an accepted frame makes of the state before it. */
  lemma AbsorbedStatus(a: Amp, t: Timed, s: AmplifierState)
    requires t.piece.Csv? && ParseStatus(Decode(t.piece.payload)) == Some(s)
    ensures var r := Absorb(a, t);
            && r.state.pOutAvg == r.meters.avg && r.state.pOutPeak == r.meters.peak
            && r.state.tuneActive == a.tuneActive && r.state.temperatureUnit == a.unit
            && r.state.(pOutAvg := s.pOutAvg, pOutPeak := s.pOutPeak, tuneActive := s.tuneActive,
                        temperatureUnit := s.temperatureUnit) == s
  {
    hide ParseStatus, Decode, Update, Reading;
  }

  lemma PublishesOne(a: Amp, ts: seq<Timed>)
    requires ts != [] && Status(ts[|ts| - 1].piece).Some?
    ensures Published(a, ts) == Published(a, ts[..|ts| - 1]) + [AbsorbAll(a, ts).state]
  {
    hide Status, Absorb;
  }

  /** The state published for an accepted status frame `s` at position `k`, however many pieces
      follow: it shows the average and the peak of the readings so far, the LED of the last RCU
      frame before it that carried one (at `j`, or the start's if there was none), the configured
      unit, and otherwise exactly what the frame said. */
  lemma PublishedState(a: Amp, ts: seq<Timed>, k: nat, j: int, s: AmplifierState)
    requires k < |ts| && ts[k].piece.Csv? && ParseStatus(Decode(ts[k].piece.payload)) == Some(s)
    requires -1 <= j < k && (j >= 0 ==> CarriesLed(ts[j].piece))
    requires forall i :: j < i < k ==> !CarriesLed(ts[i].piece)
    ensures var n, all := PublishedBefore(a, ts, k), Published(a, ts);
            var m := Run(a.meters, Samples(ts[..k + 1]));
            && n < |all| && PublishedBefore(a, ts, k + 1) == n + 1
            && all[n].pOutAvg == m.avg && all[n].pOutPeak == m.peak
            && all[n].tuneActive == (if j >= 0 then LedLit(ts[j].piece.payload) else a.tuneActive)
            && all[n].temperatureUnit == a.unit
            && all[n].(pOutAvg := s.pOutAvg, pOutPeak := s.pOutPeak, tuneActive := s.tuneActive,
                       temperatureUnit := s.temperatureUnit) == s
  {
    hide ParseStatus, Decode, AbsorbAll, Absorb, Published, Samples, LedLit, Run;
    var now, front := ts[..k + 1], ts[..k];
    assert now[..k] == front && now[k] == ts[k];
    StatusOf(ts[k].piece);
    PublishedGrows(a, ts, k + 1);
    PublishesOne(a, now);
    AbsorbedStatus(AbsorbAll(a, front), ts[k], s);
    AbsorbAllLast(a, now);
    MetersOfHistory(a, now);
    MetersOfHistory(a, front);
    LedOfHistory(a, front, j);
  }

  lemma AbsorbAllLast(a: Amp, ts: seq<Timed>)
    requires ts != []
    ensures AbsorbAll(a, ts) == Absorb(AbsorbAll(a, ts[..|ts| - 1]), ts[|ts| - 1])
  {
  }

  lemma OnlyStatusChangesState(a: Amp, t: Timed)
    ensures Status(t.piece).None? ==> Absorb(a, t).state == a.state
  {
    hide ParseStatus, Decode;
  }

  /** Every accepted status frame is one sample and one state published; nothing else is. */
  lemma OnlyStatusCounts(a: Amp, ts: seq<Timed>, k: nat)
    requires k < |ts|
    ensures var accepted := ts[k].piece.Csv? && ParseStatus(Decode(ts[k].piece.payload)).Some?;
            && PublishedBefore(a, ts, k + 1) == PublishedBefore(a, ts, k) + (if accepted then 1 else 0)
            && Samples(ts[..k + 1]) == Samples(ts[..k]) +
                 if accepted then [Reading(ParseStatus(Decode(ts[k].piece.payload)).value, ts[k].at)] else []
  {
    hide ParseStatus, Decode, AbsorbAll, Absorb, Reading;
    var now := ts[..k + 1];
    assert now[..k] == ts[..k] && now[k] == ts[k];
  }

  /** The state held is the last one published, or the start's if none has been. */
  lemma {:induction false} StateIsLastPublished(a: Amp, ts: seq<Timed>)
    ensures var all := Published(a, ts);
            AbsorbAll(a, ts).state == if all == [] then a.state else all[|all| - 1]
  {
    if ts != [] {
      hide Status, Absorb;
      var front := ts[..|ts| - 1];
      StateIsLastPublished(a, front);
      OnlyStatusChangesState(AbsorbAll(a, front), ts[|ts| - 1]);
      if Status(ts[|ts| - 1].piece).Some? {
        PublishesOne(a, ts);
      } else {
        SumNothing(Published(a, front));
      }
    }
  }

  lemma {:induction false} AbsorbAllSnoc(a: Amp, ts: seq<Timed>, t: Timed)
    ensures AbsorbAll(a, ts + [t]) == Absorb(AbsorbAll(a, ts), t)
    ensures Published(a, ts + [t]) ==
            Published(a, ts) + if Status(t.piece).Some? then [Absorb(AbsorbAll(a, ts), t).state] else []
    ensures Pieces(ts + [t]) == Pieces(ts) + [t.piece]
  {
    FrontOfSnoc(ts, t);
  }

  function RcuPayloads(ts: seq<Timed>): seq<seq<byte>> {
    if ts == [] then []
    else
      var last := ts[|ts| - 1].piece;
      RcuPayloads(ts[..|ts| - 1]) + if last.Rcu? then [last.payload] else []
  }

  /** Every RCU frame is handed on, whole and in order, and nothing else is. */
  lemma RcuFramesAreHandedOn(ts: seq<Timed>, k: nat)
    requires k < |ts|
    ensures RcuPayloads(ts[..k + 1]) ==
            RcuPayloads(ts[..k]) + if ts[k].piece.Rcu? then [ts[k].piece.payload] else []
  {
    assert ts[..k + 1][..k] == ts[..k] && ts[..k + 1][k] == ts[k];
  }

  lemma RcuPayloadsSnoc(ts: seq<Timed>, t: Timed)
    ensures RcuPayloads(ts + [t]) == RcuPayloads(ts) + if t.piece.Rcu? then [t.piece.payload] else []
  {
    FrontOfSnoc(ts, t);
  }

  lemma {:induction false} NoisesSnoc(bs: seq<byte>, b: byte)
    ensures Noises(bs + [b]) == Noises(bs) + [Noise(b)]
  {
    if bs != [] {
      DropOfSum(bs, [b], 1);
      NoisesSnoc(bs[1..], b);
    }
  }

  /** `ps` has been taken from the buffer between the two histories. */
  ghost predicate Extends(before: seq<Timed>, after: seq<Timed>, ps: seq<Piece>) {
    before <= after && Pieces(after) == Pieces(before) + ps
  }

  lemma ExtendsNothing(h: seq<Timed>)
    ensures Extends(h, h, [])
  {
  }

  lemma ExtendsTwice(h0: seq<Timed>, h1: seq<Timed>, h2: seq<Timed>, ps: seq<Piece>, qs: seq<Piece>)
    requires Extends(h0, h1, ps) && Extends(h1, h2, qs)
    ensures Extends(h0, h2, ps + qs)
  {
    SumAssociates(Pieces(h0), ps, qs);
  }

  class SerialHandler {
    var buffer: seq<byte>
    var temperatureUnit: char
    var lastTuneActive: bool
    var meters: Meters
    var state: AmplifierState
    var clock: real
    /** Calls of the two callbacks. */
    var stateUpdates: seq<AmplifierState>
    var rcuFrames: seq<seq<byte>>
    /** Everything taken from the buffer so far. */
    ghost var history: seq<Timed>
    ghost var start: Amp

    function Abs(): Amp
      reads `temperatureUnit, `lastTuneActive, `meters, `state
    {
      Amp(temperatureUnit, lastTuneActive, meters, state)
    }

    /** The fields are what the history makes of the start state. */
    ghost predicate Valid()
      reads this
    {
      && Normal(buffer) && |buffer| <= MAX_BUFFER
      && Faithful()
    }

    ghost predicate Faithful()
      reads `temperatureUnit, `lastTuneActive, `meters, `state, `clock
      reads `stateUpdates, `rcuFrames, `history, `start
    {
      && Abs() == AbsorbAll(start, history)
      && stateUpdates == Published(start, history)
      && rcuFrames == RcuPayloads(history)
      && Ordered(history)
      && (history != [] ==> history[|history| - 1].at <= clock)
    }

    constructor (unit: char)
      ensures Valid() && buffer == [] && history == []
      ensures start == Amp(unit, false, COLD, InitialState(unit))
    {
      buffer, temperatureUnit, lastTuneActive := [], unit, false;
      meters, state, clock := COLD, InitialState(unit), 0.0;
      stateUpdates, rcuFrames, history := [], [], [];
      start := Amp(unit, false, COLD, InitialState(unit));
    }

    method Monotonic() returns (now: real)
      modifies this`clock
      ensures old(clock) <= now == clock
    {
      now := *;
      if now < clock {
        now := clock;
      }
      clock := now;
    }

    method FindSync(from: nat) returns (i: Option<nat>)
      ensures i == FirstSync(buffer, from)
    {
      var k := from;
      while k + 2 < |buffer|
        invariant k >= from && FirstSync(buffer, from) == FirstSync(buffer, k)
      {
        if buffer[k] == SYNC && buffer[k + 1] == SYNC && buffer[k + 2] == SYNC {
          return Some(k);
        }
        k := k + 1;
      }
      return None;
    }

    ghost method Record(t: Timed)
      requires history != [] ==> history[|history| - 1].at <= t.at
      requires Ordered(history)
      modifies this`history
      ensures history == old(history) + [t] && Ordered(history)
      ensures Extends(old(history), history, [t.piece])
      ensures AbsorbAll(start, history) == Absorb(AbsorbAll(start, old(history)), t)
      ensures Published(start, history) ==
              Published(start, old(history)) +
              if Status(t.piece).Some? then [Absorb(AbsorbAll(start, old(history)), t).state] else []
      ensures RcuPayloads(history) ==
              RcuPayloads(old(history)) + if t.piece.Rcu? then [t.piece.payload] else []
    {
      AbsorbAllSnoc(start, history, t);
      RcuPayloadsSnoc(history, t);
      history := history + [t];
    }

    /** A piece that is no frame leaves every field as it is. */
    ghost method RecordLost(p: Piece)
      requires Faithful() && (p.Noise? || p.Dropped?)
      modifies this`history
      ensures Faithful() && Extends(old(history), history, [p])
    {
      hide Decode, ParseStatus, Stamped, Update, AbsorbAll, Published, RcuPayloads, Pieces;
      Record(Timed(p, clock));
    }

    /** Takes the first `n` bytes off the buffer as noise. */
    method Discard(n: nat)
      requires n <= |buffer| && Faithful()
      modifies this`buffer, this`history
      ensures Faithful() && buffer == old(buffer)[n..]
      ensures Extends(old(history), history, Noises(old(buffer)[..n]))
    {
      hide Faithful, Extends;
      ghost var bytes := buffer[..n];
      ghost var i := 0;
      ExtendsNothing(history);
      assert Noises(bytes[..0]) == [];
      while i < n
        invariant i <= n && Faithful() && buffer == old(buffer)
        invariant Extends(old(history), history, Noises(bytes[..i]))
      {
        ghost var h := history;
        RecordLost(Noise(bytes[i]));
        ExtendsTwice(old(history), h, history, Noises(bytes[..i]), [Noise(bytes[i])]);
        NoisesSnoc(bytes[..i], bytes[i]);
        assert bytes[..i] + [bytes[i]] == bytes[..i + 1];
        i := i + 1;
      }
      assert bytes[..n] == bytes;
      buffer := buffer[n..];
    }

    /** The part of a CSV frame after its bytes have left the buffer. */
    method TakeStatus(payload: seq<byte>, ghost trailer: seq<byte>)
      requires Faithful()
      modifies this
      ensures Faithful() && start == old(start) && buffer == old(buffer)
      ensures Extends(old(history), history, [Csv(payload, trailer)])
    {
      hide Decode, ParseStatus, Update, Watts, AbsorbAll, Published, RcuPayloads, Pieces;
      var now := Monotonic();
      var parsed := ParseStatus(Decode(payload));
      if parsed.Some? {
        var s := parsed.value;
        meters := Update(meters, Reading(s, now));
        state := s.(temperatureUnit := temperatureUnit, tuneActive := lastTuneActive,
                    pOutAvg := meters.avg, pOutPeak := meters.peak);
        stateUpdates := stateUpdates + [state];
      }
      Record(Timed(Csv(payload, trailer), now));
    }

    method ConsumeCsvFrame() returns (ok: bool)
      requires Faithful() && |buffer| >= 4 && SyncAt(buffer, 0) && buffer[3] == CSV_MARK
      modifies this
      ensures Faithful() && start == old(start)
      ensures ok == Next(old(buffer)).Emit?
      ensures !ok ==> buffer == old(buffer) && history == old(history)
      ensures ok ==> buffer == old(buffer)[Next(old(buffer)).n..] &&
                     Extends(old(history), history, [Next(old(buffer)).p])
    {
      hide Faithful, Extends;
      var length := buffer[3];
      var total := 3 + 1 + length + 2 + 2;
      if |buffer| < total {
        return false;
      }
      var payload := buffer[4..4 + length];
      ghost var trailer := buffer[4 + length..total];
      buffer := buffer[total..];
      TakeStatus(payload, trailer);
      return true;
    }

    method EmitRcuFrame(payload: seq<byte>)
      requires Faithful()
      modifies this
      ensures Faithful() && start == old(start) && buffer == old(buffer)
      ensures Extends(old(history), history, [Rcu(payload)])
      ensures rcuFrames == old(rcuFrames) + [payload]
    {
      hide ParseStatus, AbsorbAll, Published, RcuPayloads, Pieces;
      var now := Monotonic();
      if |payload| > 4 {
        lastTuneActive := (payload[4] / 64) % 2 == 0;
      }
      rcuFrames := rcuFrames + [payload];
      Record(Timed(Rcu(payload), now));
    }

    method ConsumeRcuFrame() returns (ok: bool)
      requires Faithful() && |buffer| >= 4 && SyncAt(buffer, 0) && buffer[3] == RCU_MARK
      modifies this
      ensures Faithful() && start == old(start)
      ensures ok == Next(old(buffer)).Emit?
      ensures !ok ==> buffer == old(buffer) && history == old(history)
      ensures ok ==> buffer == old(buffer)[Next(old(buffer)).n..] &&
                     Extends(old(history), history, [Next(old(buffer)).p])
    {
      var next := FindSync(4);
      if next.None? {
        return false;
      }
      var payload := buffer[4..next.value];
      buffer := buffer[next.value..];
      EmitRcuFrame(payload);
      return true;
    }

    /** Moves past one marker: the loop body after a sync has been brought to the front. */
    method TakeOne() returns (ok: bool)
      requires Faithful() && |buffer| >= 4 && SyncAt(buffer, 0)
      modifies this
      ensures Faithful() && start == old(start)
      ensures ok == Next(old(buffer)).Emit?
      ensures !ok ==> buffer == old(buffer) && history == old(history)
      ensures ok ==> buffer == old(buffer)[Next(old(buffer)).n..] &&
                     Extends(old(history), history, [Next(old(buffer)).p])
    {
      var marker := buffer[3];
      if marker == CSV_MARK {
        ok := ConsumeCsvFrame();
      } else if marker == RCU_MARK {
        ok := ConsumeRcuFrame();
      } else {
        UnknownMarker(buffer);
        Discard(1);
        ok := true;
      }
    }

    /** The drain loop emits and leaves exactly what the one-shot parse does. */
    method DrainBuffer()
      requires Faithful()
      modifies this
      ensures Faithful() && start == old(start)
      ensures buffer == Parse(old(buffer)).rest
      ensures Extends(old(history), history, Parse(old(buffer)).pieces)
    {
      hide *;
      ghost var whole := Parse(buffer);
      ghost var done: seq<Piece> := [];
      ExtendsNothing(history);
      while true
        invariant Faithful() && start == old(start)
        invariant Extends(old(history), history, done)
        invariant whole.pieces == done + Parse(buffer).pieces && whole.rest == Parse(buffer).rest
        decreases |buffer|
      {
        ghost var h, b := history, buffer;
        var sync := FindSync(0);
        if sync.None? {
          SumNothing(done);
          if |buffer| > 3 {
            var n := |buffer| - 3;
            NoSyncSkips(b);
            Discard(n);
            ExtendsTwice(old(history), h, history, done, Noises(b[..n]));
          } else {
            ShortStays(b);
          }
          return;
        }
        SyncSkips(b, sync.value);
        DropNothing(b);
        if sync.value > 0 {
          Discard(sync.value);
          ExtendsTwice(old(history), h, history, done, Noises(b[..sync.value]));
          SumAssociates(done, Noises(b[..sync.value]), Parse(buffer).pieces);
          done := done + Noises(b[..sync.value]);
          h, b := history, buffer;
        }
        if |buffer| < 4 {
          SumNothing(done);
          ShortStays(b);
          return;
        }
        var ok := TakeOne();
        if !ok {
          SumNothing(done);
          StuckStays(b);
          return;
        }
        ParseContinues(b);
        ExtendsTwice(old(history), h, history, done, [Next(b).p]);
        SumAssociates(done, [Next(b).p], Parse(buffer).pieces);
        done := done + [Next(b).p];
      }
    }

    /** One chunk from the reader thread. */
    method IngestChunk(chunk: seq<byte>)
      requires Valid()
      modifies this
      ensures Valid() && start == old(start)
      ensures buffer == Feed(old(buffer), Chunk(chunk)).rest
      ensures |old(buffer)| + |chunk| > 4096 && chunk != [] ==> buffer == []
      ensures |old(buffer)| + |chunk| <= 4096 && chunk != [] ==> buffer == Parse(old(buffer) + chunk).rest
      ensures Extends(old(history), history, Feed(old(buffer), Chunk(chunk)).pieces)
    {
      hide Faithful, Extends, Parse;
      FeedKeeps(buffer, Chunk(chunk));
      ExtendsNothing(history);
      if chunk == [] {
        return;
      }
      buffer := buffer + chunk;
      if |buffer| > MAX_BUFFER {
        RecordLost(Dropped(buffer));
        buffer := [];
        return;
      }
      DrainBuffer();
    }

    /** The quiet timer: an open RCU frame is taken as complete. */
    method FlushOpenRcuFrame()
      requires Valid()
      modifies this
      ensures Valid() && start == old(start)
      ensures buffer == Feed(old(buffer), Quiet).rest
      ensures OpenRcu(old(buffer)) ==> buffer == [] && rcuFrames == old(rcuFrames) + [old(buffer)[4..]]
      ensures !OpenRcu(old(buffer)) ==> buffer == old(buffer) && rcuFrames == old(rcuFrames)
      ensures Extends(old(history), history, Feed(old(buffer), Quiet).pieces)
    {
      hide Faithful, Extends;
      ExtendsNothing(history);
      if |buffer| < 4 {
        return;
      }
      if !(buffer[0] == SYNC && buffer[1] == SYNC && buffer[2] == SYNC && buffer[3] == RCU_MARK) {
        return;
      }
      var payload := buffer[4..];
      buffer := [];
      EmitRcuFrame(payload);
    }

    /** Opening the port starts from an empty buffer. */
    method OpenPort()
      requires Valid()
      modifies this`buffer, this`history
      ensures Valid() && buffer == Feed(old(buffer), Reopen).rest == []
      ensures Extends(old(history), history, Feed(old(buffer), Reopen).pieces)
    {
      hide Faithful, Extends;
      RecordLost(Dropped(buffer));
      buffer := [];
    }
  }

  lemma ShortStays(b: seq<byte>)
    requires |b| <= 3
    ensures Parse(b) == Parsed([], b)
  {
  }

  lemma NoSyncSkips(b: seq<byte>)
    requires |b| > 3 && FirstSync(b, 0).None?
    ensures Parse(b) == Parsed(Noises(b[..|b| - 3]), b[|b| - 3..])
  {
    ParseSkips(b, |b| - 3);
    ShortStays(b[|b| - 3..]);
  }

  lemma SyncSkips(b: seq<byte>, n: nat)
    requires FirstSync(b, 0) == Some(n)
    ensures n <= |b| && SyncAt(b[n..], 0)
    ensures Parse(b) == Parsed(Noises(b[..n]) + Parse(b[n..]).pieces, Parse(b[n..]).rest)
  {
    ParseSkips(b, n);
  }

  lemma ParseContinues(b: seq<byte>)
    requires Next(b).Emit?
    ensures Parse(b).pieces == [Next(b).p] + Parse(b[Next(b).n..]).pieces
    ensures Parse(b).rest == Parse(b[Next(b).n..]).rest
  {
  }

  lemma StuckStays(b: seq<byte>)
    requires Next(b).Stuck?
    ensures Parse(b) == Parsed([], b)
  {
  }

  lemma UnknownMarker(b: seq<byte>)
    requires |b| >= 4 && SyncAt(b, 0) && b[3] != CSV_MARK && b[3] != RCU_MARK
    ensures Next(b) == Emit(Noise(b[0]), 1)
    ensures Noises(b[..1]) == [Noise(b[0])]
  {
    assert b[..1][1..] == [];
  }
}
