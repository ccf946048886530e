/**
 spe/tune_orchestrator.py against an amplifier and a radio that may do anything: every read
 shows an arbitrary value, every radio call may raise, every wait may match, give up or meet
 a stop request. The orchestrator's own order of steps is proved to be the one TuneTrace
 accepts.
 */
module TuneOrchestrator {
  import opened Sequences
  import opened Text
  import opened StatusLine
  import opened BandTable
  import opened TuneTrace
  import TuneLaws

  /** Counts over the run in progress. */
  datatype Tally = Tally(steps: nat, successes: nat, done: nat, freqs: seq<real>)

  const ZERO := Tally(0, 0, 0, [])

  function Count(y: Tally, e: Event): Tally {
    match e
    case RunBegin => ZERO
    case Say(SWEEP_STEP) => y.(steps := y.steps + 1)
    case Say(SUCCESS) => y.(successes := y.successes + 1)
    case Say(SWEEP_DONE) => y.(done := y.done + 1)
    case SetFreq(f, _) => y.(freqs := y.freqs + [f])
    case _ => y
  }

  function TallyOf(t: Trace): Tally {
    if t == [] then ZERO else Count(TallyOf(t[..|t| - 1]), t[|t| - 1])
  }

  /** Waiting for the radio to report its frequency. */
  predicate Searching(q: State) {
    q.Acquired? || q.Looking?
  }

  /** What goes against a run: a radio call that raises, a wait that ends unmatched, a stop, an
      amplifier found unready. Cleanup that fails does not count. */
  predicate Setback(q: State, e: Event) {
    match e
    case Connect(ok) => !ok
    case SetMode(_, ok) => !ok
    case SetFreq(_, ok) => !ok
    case SetPower(ok) => !ok
    case Carrier(on, ok) => on && !ok
    case SawOp(op) => q.InCycle? && !op.Stby?
    case SawLed(lit) => q.InCycle? && q.cycle.SeenStby? && lit
    case SawStop => !Searching(q)
    case TimedOut => !q.Retoggled? && !Searching(q)
    case _ => false
  }

  /** The latest run: the trace before it, what the search for the radio's frequency came to
      (if there was one), the modes asked for, and whether there has been a setback. */
  datatype Course = Course(before: Trace, sought: Option<Option<real>>, modes: seq<string>, hindered: bool)

  function Hinder(c: Course, setback: bool): Course {
    c.(hindered := c.hindered || setback)
  }

  /** What an event of the search settles. */
  function Found(q: State, e: Event): Option<Option<real>> {
    match e
    case SawFreq(At(mHz)) => Some(Some(mHz))
    case SawFreq(Unreadable) => Some(None)
    case SawStop => if Searching(q) then Some(None) else None
    case TimedOut => if Searching(q) then Some(None) else None
    case _ => None
  }

  function Note(c: Course, t: Trace, q: State, e: Event): Course {
    if e.RunBegin? then Course(t, None, [], false)
    else if e.SetMode? then Hinder(c.(modes := c.modes + [e.mode]), Setback(q, e))
    else if Found(q, e).Some? then Hinder(c.(sought := Found(q, e)), Setback(q, e))
    else Hinder(c, Setback(q, e))
  }

  function CourseOf(t: Trace): Course {
    if t == [] then Course([], None, [], false)
    else Note(CourseOf(t[..|t| - 1]), t[..|t| - 1], Run(t[..|t| - 1]), t[|t| - 1])
  }

  lemma CountsSnoc(t: Trace, e: Event)
    ensures TallyOf(t + [e]) == Count(TallyOf(t), e)
    ensures CourseOf(t + [e]) == Note(CourseOf(t), t, Run(t), e)
  {
    hide Run, Count, Note;
    FrontOfSnoc(t, e);
  }

  datatype Wait = Matched | Expired | Stopped

  function InMHz(kHz: seq<int>): (f: seq<real>)
    ensures |f| == |kHz|
    ensures forall i :: 0 <= i < |f| ==> f[i] == kHz[i] as real / 1000.0
  {
    seq(|kHz|, i requires 0 <= i < |kHz| => kHz[i] as real / 1000.0)
  }

  /** The band a request names once the table's spelling has been tried with and without "m". */
  function RequestedBand(requested: string): Option<Band> {
    var req := Lower(Strip(requested));
    if Named(req).Some? then Named(req) else Named(req + "m")
  }

  predicate AsksForRadio(requested: string) {
    var req := Lower(Strip(requested));
    req == "" || req == "auto" || req == "current"
  }

  /** The modes a tune has to ask for after a snapshot. */
  function ModesDue(snap: Option<Vfo>): seq<string> {
    if snap.Some? && NeedsCw(snap.value.mode) then ["CW"] else []
  }

  /** The amplifier and the radio as the orchestrator meets them, and the record of it. */
  class Bench {
    ghost var trace: Trace
    ghost var q: State
    ghost var tally: Tally
    ghost var course: Course

    ghost predicate Valid()
      reads this
    {
      q == Run(trace) && tally == TallyOf(trace) && course == CourseOf(trace)
    }

    constructor ()
      ensures Valid() && trace == [] && q == Idle
    {
      trace, q, tally, course := [], Idle, ZERO, Course([], None, [], false);
    }

    ghost method Emit(e: Event)
      requires Valid()
      modifies this
      ensures Valid() && trace == old(trace) + [e]
      ensures q == Step(old(q), e) && tally == Count(old(tally), e) && course == Note(old(course), old(trace), old(q), e)
    {
      hide Run, TallyOf, CourseOf, Step, Count, Setback;
      RunSnoc(trace, e);
      CountsSnoc(trace, e);
      trace, q, tally, course := trace + [e], Step(q, e), Count(tally, e), Note(course, trace, q, e);
    }

    method OpStatus() returns (op: OpStatus)
      requires Valid()
      modifies this
      ensures Valid() && q == Step(old(q), SawOp(op)) && tally == old(tally)
      ensures course == Hinder(old(course), old(q).InCycle? && !op.Stby?)
    {
      op := *;
      Emit(SawOp(op));
    }

    method TuneLed() returns (lit: bool)
      requires Valid()
      modifies this
      ensures Valid() && q == Step(old(q), SawLed(lit)) && tally == old(tally)
      ensures course == Hinder(old(course), old(q).InCycle? && old(q).cycle.SeenStby? && lit)
    {
      lit := *;
      Emit(SawLed(lit));
    }

    method SendCommand(ghost e: Event)
      requires Valid() && (e == SendOper || e == SendTune)
      modifies this
      ensures Valid() && q == Step(old(q), e) && tally == old(tally)
      ensures course == old(course)
    {
      Emit(e);
    }

    method Connect() returns (ok: bool)
      requires Valid()
      modifies this
      ensures Valid() && q == Step(old(q), TuneTrace.Connect(ok)) && tally == old(tally)
      ensures course == Hinder(old(course), !ok)
    {
      ok := *;
      Emit(TuneTrace.Connect(ok));
    }

    method Disconnect()
      requires Valid()
      modifies this
      ensures Valid() && q == Step(old(q), TuneTrace.Disconnect) && tally == old(tally)
      ensures course == old(course)
    {
      Emit(TuneTrace.Disconnect);
    }

    method Snapshot() returns (snap: Option<Vfo>)
      requires Valid()
      modifies this
      ensures Valid() && q == Step(old(q), TuneTrace.Snapshot(snap)) && tally == old(tally)
      ensures course == old(course)
    {
      snap := *;
      Emit(TuneTrace.Snapshot(snap));
    }

    /** The cached frequency, as far as the radio has reported it. */
    method PeekFrequency() returns (r: Reading)
      requires Valid()
      modifies this
      ensures Valid() && q == Step(old(q), SawFreq(r)) && tally == old(tally)
      ensures course == if r.NotYet? then old(course)
                        else old(course).(sought := Some(if r.At? then Some(r.mHz) else None))
    {
      r := *;
      Emit(SawFreq(r));
    }

    method SetMode(mode: string) returns (ok: bool)
      requires Valid()
      modifies this
      ensures Valid() && q == Step(old(q), TuneTrace.SetMode(mode, ok)) && tally == old(tally)
      ensures course == Hinder(old(course).(modes := old(course).modes + [mode]), !ok)
    {
      ok := *;
      Emit(TuneTrace.SetMode(mode, ok));
    }

    method SetFrequency(mHz: real) returns (ok: bool)
      requires Valid()
      modifies this
      ensures Valid() && q == Step(old(q), SetFreq(mHz, ok)) && course == Hinder(old(course), !ok)
      ensures tally == old(tally).(freqs := old(tally).freqs + [mHz])
    {
      ok := *;
      Emit(SetFreq(mHz, ok));
    }

    method SetTunePower() returns (ok: bool)
      requires Valid()
      modifies this
      ensures Valid() && q == Step(old(q), SetPower(ok)) && tally == old(tally)
      ensures course == Hinder(old(course), !ok)
    {
      ok := *;
      Emit(SetPower(ok));
    }

    method TuneCarrier(on: bool) returns (ok: bool)
      requires Valid()
      modifies this
      ensures Valid() && q == Step(old(q), Carrier(on, ok)) && tally == old(tally)
      ensures course == Hinder(old(course), on && !ok)
    {
      ok := *;
      Emit(Carrier(on, ok));
    }

    method Restore(vfo: Vfo) returns (ok: bool)
      requires Valid()
      modifies this
      ensures Valid() && q == Step(old(q), RestoreVfo(vfo, ok)) && tally == old(tally)
      ensures course == old(course)
    {
      ok := *;
      Emit(RestoreVfo(vfo, ok));
    }
  }

  class TuneOrchestrator {
    const bench: Bench
    var running: bool
    var stopRequested: bool

    ghost predicate Valid()
      reads this, bench
    {
      bench.Valid() && (bench.q == Idle <==> !running) && bench.q != Broken
    }

    constructor (bench: Bench)
      requires bench.Valid() && bench.q == Idle
      ensures Valid() && !running && this.bench == bench
    {
      this.bench, running, stopRequested := bench, false, false;
    }

    method Status(phase: Phase)
      requires bench.Valid()
      modifies bench
      ensures bench.Valid() && bench.q == Step(old(bench.q), Say(phase))
      ensures bench.tally == Count(old(bench.tally), Say(phase))
      ensures bench.course == old(bench.course)
    {
      bench.Emit(Say(phase));
    }

    /** Other tasks get to run: a stop may be requested, further calls are turned away. */
    method Yield()
      requires bench.Valid()
      modifies bench, `stopRequested
      ensures bench.Valid() && bench.q == old(bench.q) && bench.tally == old(bench.tally)
      ensures old(stopRequested) ==> stopRequested
      ensures bench.course == old(bench.course)
    {
      hide Run, TallyOf, CourseOf;
      var stop: bool := *;
      stopRequested := stopRequested || stop;
      var calls: nat := *;
      while calls > 0
        invariant bench.Valid() && bench.q == old(bench.q) && bench.tally == old(bench.tally)
        invariant bench.course == old(bench.course)
        invariant old(stopRequested) ==> stopRequested
      {
        bench.Emit(Refused);
        calls := calls - 1;
      }
    }

    /** Polls the operate status until it is `expected`, the deadline passes or, unless
        `ignoreStop`, a stop is requested. */
    method WaitForOpStatus(expected: OpStatus, ignoreStop: bool) returns (r: Wait)
      requires bench.Valid()
      requires if ignoreStop then bench.q == Retoggled && expected.Oper?
               else bench.q.Toggled? && expected.Stby?
      modifies bench, `stopRequested
      ensures bench.Valid() && bench.tally == old(bench.tally)
      ensures ignoreStop ==> !r.Stopped? && bench.q == if r.Matched? then Back else GaveUp
      ensures !ignoreStop ==>
                bench.q == if r.Matched? then Dropped(old(bench.q).saved) else Quitting(old(bench.q).saved)
      ensures bench.course == Hinder(old(bench.course), !ignoreStop && !r.Matched?)
    {
      hide StepInCycle, Run, TallyOf, CourseOf;
      var polls: nat := *;
      while polls > 0
        invariant bench.Valid() && bench.q == old(bench.q) && bench.tally == old(bench.tally)
        invariant bench.course == old(bench.course)
      {
        if !ignoreStop && stopRequested {
          bench.Emit(SawStop);
          return Stopped;
        }
        var op := bench.OpStatus();
        if op == expected {
          return Matched;
        }
        Yield();
        polls := polls - 1;
      }
      bench.Emit(TimedOut);
      return Expired;
    }

    /** Polls the TUNE LED in the same way. */
    method WaitForTuneActive(expected: bool) returns (r: Wait)
      requires bench.Valid() && bench.q.InCycle?
      requires bench.q.cycle == if expected then Sent else On
      modifies bench, `stopRequested
      ensures bench.Valid() && bench.tally == old(bench.tally)
      ensures bench.q == old(bench.q).(cycle :=
                if r.Matched? then (if expected then Lit else Swept)
                else if expected then Failing else OnFailed)
      ensures bench.course == Hinder(old(bench.course), !r.Matched?)
    {
      hide StepOutside, Run, TallyOf, CourseOf;
      var polls: nat := *;
      while polls > 0
        invariant bench.Valid() && bench.q == old(bench.q) && bench.tally == old(bench.tally)
        invariant bench.course == old(bench.course)
      {
        if stopRequested {
          bench.Emit(SawStop);
          return Stopped;
        }
        var lit := bench.TuneLed();
        if lit == expected {
          return Matched;
        }
        Yield();
        polls := polls - 1;
      }
      bench.Emit(TimedOut);
      return Expired;
    }

    /** The steps of a cycle, one part of its try block each. A part that fails has said why. */
    method Preflight() returns (ok: bool)
      requires bench.Valid() && bench.q.InCycle? && bench.q.cycle == Fresh
      modifies bench
      ensures bench.Valid() && bench.tally == old(bench.tally)
      ensures bench.q == old(bench.q).(cycle := if ok then Dark(false) else Closed(false))
      ensures bench.course == Hinder(old(bench.course), !ok)
    {
      hide StepOutside, Run, TallyOf, CourseOf;
      Status(STARTED);
      assert bench.q == old(bench.q).(cycle := Started);
      var op := bench.OpStatus();
      if op != Stby {
        ok := Failed(FAIL);
        return;
      }
      assert bench.q == old(bench.q).(cycle := SeenStby);
      var busy := bench.TuneLed();
      if busy {
        ok := Failed(FAIL);
        return;
      }
      assert bench.q == old(bench.q).(cycle := Dark(false));
      Status(PREFLIGHT_OK);
      return true;
    }

    /** A part of a cycle gives up before the carrier is on. */
    method Failed(phase: Phase) returns (ok: bool)
      requires bench.Valid() && bench.q.InCycle? && bench.q.cycle == Failing
      requires phase == FAIL || phase == ABORT
      modifies bench
      ensures bench.Valid() && bench.tally == old(bench.tally) && !ok
      ensures bench.q == old(bench.q).(cycle := Closed(false))
      ensures bench.course == old(bench.course)
    {
      hide StepOutside, Run, TallyOf, CourseOf;
      Status(phase);
      return false;
    }

    method SetRadioFrequency(freq: real) returns (ok: bool)
      requires bench.Valid() && bench.q.InCycle? && bench.q.cycle == Dark(false)
      modifies bench, `stopRequested
      ensures bench.Valid()
      ensures bench.q == old(bench.q).(cycle := if ok then Dark(true) else Failing)
      ensures bench.tally == old(bench.tally).(freqs := old(bench.tally).freqs + [freq])
      ensures bench.course == Hinder(old(bench.course), !ok)
    {
      hide StepOutside, Run, TallyOf, CourseOf;
      ok := bench.SetFrequency(freq);
      Yield();
      if ok {
        assert bench.q == old(bench.q).(cycle := Dark(true));
        Status(FREQ_SET);
      }
    }

    method SetRadioPower() returns (ok: bool)
      requires bench.Valid() && bench.q.InCycle? && bench.q.cycle.Dark?
      modifies bench, `stopRequested
      ensures bench.Valid() && bench.tally == old(bench.tally)
      ensures bench.q == old(bench.q).(cycle := if ok then Powered else Failing)
      ensures bench.course == Hinder(old(bench.course), !ok)
    {
      hide StepOutside, Run, TallyOf, CourseOf;
      ok := bench.SetTunePower();
      Yield();
    }

    method SetUpRadio(freq: Option<real>) returns (ok: bool)
      requires bench.Valid() && bench.q.InCycle? && bench.q.cycle == Dark(false)
      modifies bench, `stopRequested
      ensures bench.Valid()
      ensures bench.q == old(bench.q).(cycle := if ok then Powered else Closed(false))
      ensures SameBut(old(bench.tally), bench.tally, freq, ok, 0)
      ensures bench.course == Hinder(old(bench.course), !ok)
    {
      hide Step, Run, TallyOf, CourseOf;
      if freq.Some? {
        ok := SetRadioFrequency(freq.value);
        if !ok {
          ok := Failed(FAIL);
        return;
        }
      }
      ok := SetRadioPower();
      if !ok {
        ok := Failed(FAIL);
        return;
      }
    }

    method EnterTune() returns (ok: bool)
      requires bench.Valid() && bench.q.InCycle? && bench.q.cycle == Powered
      modifies bench, `stopRequested
      ensures bench.Valid() && bench.tally == old(bench.tally)
      ensures bench.q == old(bench.q).(cycle := if ok then Lit else Closed(false))
      ensures bench.course == Hinder(old(bench.course), !ok)
    {
      hide StepOutside, Run, TallyOf, CourseOf;
      bench.SendCommand(SendTune);
      assert bench.q == old(bench.q).(cycle := Sent);
      Status(TUNE_SENT);
      var entered := WaitForTuneActive(true);
      if entered.Stopped? {
        ok := Failed(ABORT);
        return;
      }
      if entered.Expired? {
        ok := Failed(FAIL);
        return;
      }
      return true;
    }

    method KeyCarrier() returns (ok: bool)
      requires bench.Valid() && bench.q.InCycle? && bench.q.cycle == Lit
      modifies bench, `stopRequested
      ensures bench.Valid() && bench.tally == old(bench.tally)
      ensures bench.q == old(bench.q).(cycle := if ok then On else Failing)
      ensures bench.course == Hinder(old(bench.course), !ok)
    {
      hide StepOutside, Run, TallyOf, CourseOf;
      Status(LED_ON);
      assert bench.q == old(bench.q).(cycle := Lit);
      ok := bench.TuneCarrier(true);
      Yield();
      if ok {
        assert bench.q == old(bench.q).(cycle := On);
        Status(CARRIER_ON);
      }
    }

    method SaySwept(swept: Wait)
      requires bench.Valid() && bench.q.InCycle?
      requires bench.q.cycle == if swept.Matched? then Swept else OnFailed
      modifies bench
      ensures bench.Valid() && bench.tally == old(bench.tally)
      ensures bench.q == old(bench.q).(cycle := if swept.Matched? then SweptSaid else OnFailedSaid)
      ensures bench.course == old(bench.course)
    {
      hide StepOutside, Run, TallyOf, CourseOf;
      Status(match swept case Matched => LED_OFF case Expired => FAIL case Stopped => ABORT);
    }

    /** `carrierOn` is set only after the call has returned. */
    method CarryThrough() returns (success: bool, carrierOn: bool)
      requires bench.Valid() && bench.q.InCycle? && bench.q.cycle == Lit
      modifies bench, `stopRequested
      ensures bench.Valid() && bench.tally == old(bench.tally) && (success ==> carrierOn)
      ensures bench.q == old(bench.q).(cycle :=
                if success then SweptSaid else if carrierOn then OnFailedSaid else Closed(false))
      ensures bench.course == Hinder(old(bench.course), !success)
    {
      hide Step, Run, TallyOf, CourseOf;
      success := false;
      carrierOn := KeyCarrier();
      if !carrierOn {
        carrierOn := Failed(FAIL);
        return;
      }
      var swept := WaitForTuneActive(false);
      SaySwept(swept);
      success := swept.Matched?;
    }

    method CycleBody(freq: Option<real>) returns (success: bool, carrierOn: bool)
      requires bench.Valid() && bench.q.InCycle? && bench.q.cycle == Fresh
      modifies bench, `stopRequested
      ensures bench.Valid() && (success ==> carrierOn)
      ensures bench.q == old(bench.q).(cycle :=
                if success then SweptSaid else if carrierOn then OnFailedSaid else Closed(false))
      ensures SameBut(old(bench.tally), bench.tally, freq, success, 0)
      ensures bench.course == Hinder(old(bench.course), !success)
    {
      hide Step, Run, TallyOf, CourseOf;
      success, carrierOn := false, false;
      var ready := Preflight();
      if !ready {
        return;
      }
      var done := SetUpRadio(freq);
      if !done {
        return;
      }
      var entered := EnterTune();
      if !entered {
        return;
      }
      success, carrierOn := CarryThrough();
    }

    method CutCarrier()
      requires bench.Valid() && bench.q.InCycle?
      requires bench.q.cycle == SweptSaid || bench.q.cycle == OnFailedSaid
      modifies bench, `stopRequested
      ensures bench.Valid() && bench.tally == old(bench.tally)
      ensures bench.q == old(bench.q).(cycle := Closed(old(bench.q).cycle == SweptSaid))
      ensures bench.course == old(bench.course)
    {
      hide StepOutside, Run, TallyOf, CourseOf;
      var cut := bench.TuneCarrier(false);
      assert bench.q == old(bench.q).(cycle := Cut(old(bench.q).cycle == SweptSaid, cut));
      Yield();
      Status(if cut then CARRIER_OFF else FAIL);
    }

    /** The finally block of a cycle. */
    method CycleCleanup(success: bool, carrierOn: bool)
      requires bench.Valid() && bench.q.InCycle? && (success ==> carrierOn)
      requires bench.q.cycle ==
                 if success then SweptSaid else if carrierOn then OnFailedSaid else Closed(false)
      modifies bench, `stopRequested
      ensures bench.Valid() && bench.q == old(bench.q).(cycle := Over(success))
      ensures bench.tally == old(bench.tally).(successes := bench.tally.successes)
      ensures bench.tally.successes == old(bench.tally).successes + if success then 1 else 0
      ensures bench.course == old(bench.course)
    {
      hide StepOutside, Run, TallyOf, CourseOf;
      if carrierOn {
        CutCarrier();
      }
      assert bench.q == old(bench.q).(cycle := Closed(success));
      Status(if success then SUCCESS else FAIL);
    }

    /** One tune cycle with its cleanup. */
    method RunOneCycle(freq: Option<real>) returns (ok: bool)
      requires bench.Valid() && bench.q.Ready?
      modifies bench, `stopRequested
      ensures bench.Valid() && bench.q == old(bench.q)
      ensures SameBut(old(bench.tally), bench.tally, freq, ok, if ok then 1 else 0)
      ensures bench.course == Hinder(old(bench.course), !ok)
    {
      hide CycleStep, Run, TallyOf, CourseOf;
      bench.Emit(CycleBegin);
      var success, carrierOn := CycleBody(freq);
      CycleCleanup(success, carrierOn);
      bench.Emit(CycleEnd(success));
      return success;
    }

    method SaveVfo() returns (snap: Option<Vfo>)
      requires bench.Valid() && (bench.q == Acquired || bench.q == Banded)
      modifies bench
      ensures bench.Valid() && bench.q == AfterSnapshot(snap) && bench.tally == old(bench.tally)
      ensures bench.course == old(bench.course)
    {
      hide StepInCycle, Run, TallyOf, CourseOf;
      snap := bench.Snapshot();
      Status(VFO_SAVED);
    }

    method RestoreSaved(vfo: Vfo, ghost owe: bool)
      requires bench.Valid() && Leavable(bench.q, Some(vfo), owe)
      modifies bench, `stopRequested
      ensures bench.Valid() && bench.q == Unwinding(owe)
      ensures bench.tally == old(bench.tally)
      ensures bench.course == old(bench.course)
    {
      hide StepInCycle, Run, TallyOf, CourseOf;
      var ok := bench.Restore(vfo);
      Yield();
      assert bench.q == Unwinding(owe);
      Status(if ok then VFO_RESTORED else FAIL);
    }

    /** Asks for CW exactly when the snapshot knows a mode outside the CW family. */
    method SetTuneMode(snap: Option<Vfo>) returns (ok: bool)
      requires bench.Valid() && bench.q == AfterSnapshot(snap)
      modifies bench, `stopRequested
      ensures snap.None? ==> ok
      ensures bench.Valid() && bench.q == (if ok then Snapped(snap) else ModeLost(snap.value))
      ensures bench.tally == old(bench.tally)
      ensures bench.course == Hinder(old(bench.course).(modes := old(bench.course).modes + ModesDue(snap)), !ok)
      ensures ModesDue(snap) == [] ==> ok
    {
      hide StepInCycle, StepLeaving, Run, TallyOf, CourseOf;
      SumNothing(bench.course.modes);
      if snap.None? || snap.value.mode.None? {
        Status(MODE_SET);
        return true;
      }
      if TUNE_MODE <= Upper(snap.value.mode.value) {
        return true;
      }
      var done := bench.SetMode(TUNE_MODE);
      Yield();
      Status(if done then MODE_SET else FAIL);
      return done;
    }

    /** Matched(was in OPERATE), Expired (the toggle did not take) or Stopped. */
    method EnsureStby() returns (r: Wait, wasOperate: bool)
      requires bench.Valid() && bench.q.Snapped?
      modifies bench, `stopRequested
      ensures bench.Valid() && bench.tally == old(bench.tally)
      ensures bench.q == if r.Matched? then Ready(old(bench.q).saved, wasOperate)
                         else Quitting(old(bench.q).saved)
      ensures !r.Matched? ==> !wasOperate
      ensures bench.course == Hinder(old(bench.course), !r.Matched?)
    {
      hide StepInCycle, Run, TallyOf, CourseOf;
      var op := bench.OpStatus();
      if op != Oper {
        assert bench.q == Calm(old(bench.q).saved);
        SaySwitched(Matched);
        return Matched, false;
      }
      assert bench.q == Armed(old(bench.q).saved);
      bench.SendCommand(SendOper);
      assert bench.q == Toggled(old(bench.q).saved);
      r := WaitForOpStatus(Stby, false);
      SaySwitched(r);
      wasOperate := r.Matched?;
    }

    /** STBY reached, or not in time; a stop is reported by the caller. */
    method SaySwitched(r: Wait)
      requires bench.Valid()
      requires if r.Matched? then bench.q.Calm? || bench.q.Dropped? else bench.q.Quitting?
      modifies bench
      ensures bench.Valid() && bench.tally == old(bench.tally) && bench.course == old(bench.course)
      ensures bench.q == if r.Matched? then Ready(old(bench.q).saved, old(bench.q).Dropped?) else old(bench.q)
    {
      hide StepInCycle, Run, TallyOf, CourseOf;
      if r.Matched? {
        Status(STBY_SET);
      } else if r.Expired? {
        Status(FAIL);
      }
    }

    method RestoreOperate()
      requires bench.Valid()
      requires bench.q == Unwinding(true) || bench.q == Ready(None, true)
      modifies bench, `stopRequested
      ensures bench.Valid() && bench.q == Settled && bench.tally == old(bench.tally)
      ensures bench.course == old(bench.course)
    {
      hide StepInCycle, Run, TallyOf, CourseOf;
      var op := bench.OpStatus();
      if op == Oper {
        SaySettled(true);
        return;
      }
      assert bench.q == Owing;
      bench.SendCommand(SendOper);
      assert bench.q == Retoggled;
      var r := WaitForOpStatus(Oper, true);
      SaySettled(r.Matched?);
    }

    method SaySettled(restored: bool)
      requires bench.Valid() && bench.q == if restored then Back else GaveUp
      modifies bench
      ensures bench.Valid() && bench.q == Settled && bench.tally == old(bench.tally)
      ensures bench.course == old(bench.course)
    {
      hide StepInCycle, Run, TallyOf, CourseOf;
      Status(if restored then OPER_RESTORED else FAIL);
    }

    /** The VFO goes back, if it was saved. */
    method LeaveVfo(snap: Option<Vfo>, ghost owe: bool)
      requires bench.Valid() && Leavable(bench.q, snap, owe)
      modifies bench, `stopRequested
      ensures bench.Valid() && bench.tally == old(bench.tally)
      ensures bench.q == if snap.Some? then Unwinding(owe) else old(bench.q)
      ensures bench.course == old(bench.course)
    {
      hide Run, TallyOf, CourseOf;
      if snap.Some? {
        RestoreSaved(snap.value, owe);
      }
    }

    method DropRadio()
      requires bench.Valid() && running
      requires bench.q == Settled || bench.q == Unwinding(false) || Leavable(bench.q, None, false)
      modifies bench, `stopRequested, `running
      ensures Valid() && !running && bench.q == Idle && bench.tally == old(bench.tally)
      ensures bench.course == old(bench.course) && Ended(bench.trace)
    {
      hide StepInCycle, Run, TallyOf, CourseOf;
      bench.Disconnect();
      assert bench.q == Released;
      Yield();
      EndRun();
    }

    method EndRun()
      requires bench.Valid() && bench.q == Released
      modifies bench, `running
      ensures Valid() && !running && bench.q == Idle && bench.tally == old(bench.tally)
      ensures bench.course == old(bench.course) && Ended(bench.trace)
    {
      hide StepInCycle, StepEntering, Run, TallyOf, CourseOf;
      running := false;
      bench.Emit(RunEnd);
    }

    /** The last steps of every run: OPERATE if owed, then the radio. */
    method Release(owe: bool)
      requires bench.Valid() && running
      requires bench.q == Unwinding(owe) || Leavable(bench.q, None, owe)
      modifies bench, `stopRequested, `running
      ensures Valid() && !running && bench.q == Idle && bench.tally == old(bench.tally)
      ensures bench.course == old(bench.course) && Ended(bench.trace)
    {
      hide Step, Run, TallyOf, CourseOf;
      if owe {
        RestoreOperate();
      }
      DropRadio();
    }

    method Begin()
      requires Valid() && !running
      modifies bench, `stopRequested, `running
      ensures bench.Valid() && running && !stopRequested && bench.q == Begun && bench.tally == ZERO
      ensures bench.course == Course(old(bench.trace), None, [], false)
    {
      hide StepInCycle, Run, TallyOf, CourseOf;
      running, stopRequested := true, false;
      bench.Emit(RunBegin);
    }

    method AcquireRadio() returns (ok: bool)
      requires bench.Valid() && bench.q == Begun
      modifies bench, `stopRequested
      ensures bench.Valid() && bench.tally == old(bench.tally)
      ensures bench.q == if ok then Acquired else Unwinding(false)
      ensures bench.course == Hinder(old(bench.course), !ok)
    {
      hide StepInCycle, Run, TallyOf, CourseOf;
      ok := bench.Connect();
      Yield();
      if !ok {
        assert bench.q == Unwinding(false);
        Status(FAIL);
      }
    }

    /** A call while one is running. */
    method TurnAway()
      requires Valid() && running
      modifies bench
      ensures Valid() && bench.q == old(bench.q) && bench.trace == old(bench.trace) + [Refused]
      ensures bench.course == old(bench.course)
    {
      hide StepInCycle, StepOutside, Run, TallyOf, CourseOf;
      bench.Emit(Refused);
    }

    /** A stop cut the wait for STBY short. */
    method SayCancelled(cancelled: bool)
      requires bench.Valid() && (cancelled ==> bench.q.Quitting? || bench.q == Unwinding(false))
      modifies bench
      ensures bench.Valid() && bench.q == old(bench.q) && bench.tally == old(bench.tally)
      ensures bench.course == old(bench.course)
    {
      hide StepInCycle, Run, TallyOf, CourseOf;
      if cancelled {
        Status(ABORT);
      }
    }

    /** One cycle at the radio's frequency, or at `freq`. */
    method TuneSingle(freq: Option<real>) returns (ok: bool)
      requires Valid()
      modifies bench, `stopRequested, `running
      ensures Valid() && running == old(running)
      ensures old(running) ==> !ok && bench.trace == old(bench.trace) + [Refused] &&
                               stopRequested == old(stopRequested)
      ensures !old(running) ==> AddsOneRun(old(bench.trace), bench.trace)
      ensures !old(running) ==> bench.course == Course(old(bench.trace), None, bench.course.modes, !ok)
      ensures !old(running) ==> bench.course.modes == [] || bench.course.modes == ["CW"]
      ensures !old(running) ==> bench.tally.successes == if ok then 1 else 0
      ensures !old(running) ==> bench.tally.freqs == [] || (freq.Some? && bench.tally.freqs == [freq.value])
      ensures !old(running) && ok && freq.Some? ==> bench.tally.freqs == [freq.value]
    {
      hide Step, Run, TallyOf, CourseOf;
      if running {
        TurnAway();
        return false;
      }
      Begin();
      var reached := AcquireRadio();
      if !reached {
        Release(false);
        OneRunAdded(bench.trace);
        return false;
      }
      var snap := SaveVfo();
      var wasOperate, cancelled;
      ok, wasOperate, cancelled := SingleBody(snap, freq);
      LeaveVfo(snap, wasOperate);
      SayCancelled(cancelled);
      Release(wasOperate);
      OneRunAdded(bench.trace);
    }

    method SingleBody(snap: Option<Vfo>, freq: Option<real>) returns (ok: bool, wasOperate: bool, cancelled: bool)
      requires bench.Valid() && bench.q == AfterSnapshot(snap)
      modifies bench, `stopRequested
      ensures bench.Valid() && Leavable(bench.q, snap, wasOperate)
      ensures cancelled ==> bench.q.Quitting?
      ensures SameBut(old(bench.tally), bench.tally, freq, ok, if ok then 1 else 0)
      ensures bench.course == Hinder(old(bench.course).(modes := old(bench.course).modes + ModesDue(snap)), !ok)
    {
      hide StepInCycle, Run, TallyOf, CourseOf;
      ok, wasOperate, cancelled := false, false, false;
      var moded := SetTuneMode(snap);
      if !moded {
        return;
      }
      var r;
      r, wasOperate := EnsureStby();
      cancelled := r.Stopped?;
      if r.Matched? {
        ok := RunOneCycle(freq);
      }
    }

    /** Looks at least once: the time allowed is not yet over when it starts. */
    method WaitForRadioFreq() returns (freq: Option<real>)
      requires bench.Valid() && bench.q == Acquired
      modifies bench, `stopRequested
      ensures bench.Valid() && bench.q == Sought && bench.tally == old(bench.tally)
      ensures bench.course == old(bench.course).(sought := Some(freq))
    {
      hide StepInCycle, Run, TallyOf, CourseOf;
      var looked, polls: nat := false, *;
      while !looked || polls > 0
        invariant bench.Valid() && bench.q == (if looked then Looking else Acquired)
        invariant bench.tally == old(bench.tally) && bench.course == old(bench.course)
        decreases polls, !looked
      {
        if stopRequested {
          bench.Emit(SawStop);
          return None;
        }
        var reading := bench.PeekFrequency();
        if !reading.NotYet? {
          return if reading.At? then Some(reading.mHz) else None;
        }
        Yield();
        polls := if looked then polls - 1 else polls;
        looked := true;
      }
      bench.Emit(TimedOut);
      return None;
    }

    method SayBand(band: Option<Band>)
      requires bench.Valid() && bench.q == Sought
      modifies bench
      ensures bench.Valid() && bench.q == if band.Some? then Banded else Unwinding(false)
      ensures bench.tally == old(bench.tally) && bench.course == old(bench.course)
    {
      hide StepInCycle, Run, TallyOf, CourseOf;
      Status(if band.Some? then BAND_CHECKED else FAIL);
    }

    /** The radio rules the band: the request counts only when the radio's frequency cannot be
        read or lies in no amateur band. */
    method ResolveSweepBand(requested: string) returns (band: Option<Band>, ghost freq: Option<real>)
      requires bench.Valid() && bench.q == Acquired
      modifies bench, `stopRequested
      ensures bench.Valid() && bench.tally == old(bench.tally)
      ensures bench.q == if band.Some? then Banded else Unwinding(false)
      ensures bench.course == old(bench.course).(sought := Some(freq))
      ensures BandRule(requested, freq, band)
    {
      hide Step, Run, TallyOf, CourseOf;
      var f := WaitForRadioFreq();
      freq := f;
      if f.Some? {
        band := BandForFreq(f.value);
        if band.Some? {
          SayBand(band);
          return;
        }
      }
      band := if AsksForRadio(requested) then None else RequestedBand(requested);
      SayBand(band);
    }

    /** A whole band, one cycle a sub-band. */
    method TuneBand(requested: string) returns (ok: bool, ghost band: Option<Band>, ghost freq: Option<real>)
      requires Valid()
      modifies bench, `stopRequested, `running
      ensures Valid() && running == old(running)
      ensures old(running) ==> !ok && bench.trace == old(bench.trace) + [Refused] &&
                               stopRequested == old(stopRequested)
      ensures !old(running) ==> AddsOneRun(old(bench.trace), bench.trace)
      ensures !old(running) ==> bench.course.before == old(bench.trace)
      ensures !old(running) && bench.course.sought == None ==> band.None?
      ensures !old(running) && bench.course.sought != None ==>
                bench.course.sought == Some(freq) && BandRule(requested, freq, band)
                && Shown(bench.trace, |old(bench.trace)|, freq)
      ensures !old(running) ==> (ok <==> band.Some? && !bench.course.hindered)
      ensures !old(running) && band.None? ==> !ok && bench.tally == ZERO
      ensures !old(running) && band.Some? ==>
                SweepEnds(ok, bench.tally, InBand(Centers(band.value), band.value))
    {
      hide Step, Run, TallyOf, CourseOf, Lookup, InBand, Centers, BandRule, Named, Name, Shown;
      ok, band, freq := false, None, None;
      if running {
        TurnAway();
        return;
      }
      Begin();
      var reached := AcquireRadio();
      if !reached {
        Release(false);
        OneRunAdded(bench.trace);
        return;
      }
      var resolved: Option<Band>;
      resolved, freq := ResolveSweepBand(requested);
      band := resolved;
      if resolved.None? {
        Release(false);
        OneRunAdded(bench.trace);
        SoughtIsShown(bench.trace);
        return;
      }
      LookupTotal(resolved.value);
      var centers := Lookup(Name(resolved.value), true).value;
      LookupIsInBand(resolved.value);
      var snap := SaveVfo();
      var wasOperate, cancelled;
      ok, wasOperate, cancelled := BandBody(snap, centers);
      SayCancelled(cancelled);
      LeaveVfo(snap, wasOperate);
      Release(wasOperate);
      OneRunAdded(bench.trace);
      SoughtIsShown(bench.trace);
    }

    method BandBody(snap: Option<Vfo>, centers: seq<int>) returns (ok: bool, wasOperate: bool, cancelled: bool)
      requires bench.Valid() && bench.q == AfterSnapshot(snap) && bench.tally == ZERO && centers != []
      modifies bench, `stopRequested
      ensures bench.Valid() && Leavable(bench.q, snap, wasOperate)
      ensures cancelled ==> bench.q.Quitting?
      ensures SweepEnds(ok, bench.tally, centers)
      ensures bench.course == Hinder(old(bench.course).(modes := old(bench.course).modes + ModesDue(snap)), !ok)
    {
      hide StepInCycle, Run, TallyOf, CourseOf;
      ok, wasOperate, cancelled := false, false, false;
      var moded := SetTuneMode(snap);
      if !moded {
        return;
      }
      var r;
      r, wasOperate := EnsureStby();
      cancelled := r.Stopped?;
      if r.Matched? {
        ok := Sweep(centers);
      }
    }

    method SayInSweep(phase: Phase)
      requires bench.Valid() && bench.q.Ready?
      requires phase.SWEEP_STARTED? || phase.SWEEP_STEP? || phase.SWEEP_DONE? || phase.FAIL? || phase.ABORT?
      modifies bench
      ensures bench.Valid() && bench.q == old(bench.q) && bench.course == old(bench.course)
      ensures bench.tally == Count(old(bench.tally), Say(phase))
    {
      hide StepInCycle, Run, TallyOf, CourseOf, Count;
      Status(phase);
    }

    /** A stop met between two sub-bands. */
    method StopSweep()
      requires bench.Valid() && bench.q.Ready?
      modifies bench
      ensures bench.Valid() && bench.q == old(bench.q) && bench.tally == old(bench.tally)
      ensures bench.course == Hinder(old(bench.course), true)
    {
      hide StepInCycle, Run, TallyOf, CourseOf;
      bench.Emit(SawStop);
      SayInSweep(ABORT);
    }

    /** The sweep loop. */
    method Sweep(centers: seq<int>) returns (ok: bool)
      requires bench.Valid() && bench.q.Ready? && bench.tally == ZERO && centers != []
      modifies bench, `stopRequested
      ensures bench.Valid() && bench.q == old(bench.q)
      ensures SweepEnds(ok, bench.tally, centers)
      ensures bench.course == Hinder(old(bench.course), !ok)
    {
      hide Step, Run, TallyOf, CourseOf;
      SayInSweep(SWEEP_STARTED);
      var i := 0;
      while i < |centers|
        invariant 0 <= i <= |centers|
        invariant bench.Valid() && bench.q == old(bench.q) && bench.course == old(bench.course)
        invariant bench.tally == Tally(i, i, 0, InMHz(centers)[..i])
      {
        if stopRequested {
          StopSweep();
          return false;
        }
        var mHz := centers[i] as real / 1000.0;
        SayInSweep(SWEEP_STEP);
        var tuned := RunOneCycle(Some(mHz));
        assert InMHz(centers)[..i] + [mHz] == InMHz(centers)[..i + 1];
        if !tuned {
          SayInSweep(FAIL);
          return false;
        }
        Yield();
        i := i + 1;
      }
      SayInSweep(SWEEP_DONE);
      return true;
    }
  }

  /** `after` differs from `before` in at most one set frequency and `won` more successes. */
  predicate SameBut(before: Tally, after: Tally, freq: Option<real>, tuned: bool, won: nat) {
    && after.steps == before.steps && after.done == before.done
    && after.successes == before.successes + won
    && (after.freqs == before.freqs || (freq.Some? && after.freqs == before.freqs + [freq.value]))
    && (tuned && freq.Some? ==> after.freqs == before.freqs + [freq.value])
  }

  /** How a sweep over `centers` may end: every set frequency is the next centre, and the sweep
      succeeds with all steps taken, all cycles succeeded and SWEEP_DONE said, or fails with
      SWEEP_DONE unsaid and fewer successes than centres. */
  predicate SweepEnds(ok: bool, y: Tally, centers: seq<int>) {
    && y.freqs <= InMHz(centers) && y.steps <= |centers|
    && (ok ==> y == Tally(|centers|, |centers|, 1, InMHz(centers)))
    && (!ok ==> y.done == 0 && y.successes < |centers|)
  }

  /** States a run can be left from. */
  predicate Leavable(q: State, saved: Option<Vfo>, owe: bool) {
    q == Ready(saved, owe) ||
    (!owe && (q == Snapped(saved) || q == Quitting(saved) || (saved.Some? && q == ModeLost(saved.value))))
  }

  /** Which band a sweep may take: the one containing the radio's frequency if there is one,
      and otherwise only a band the request names. */
  predicate BandRule(requested: string, freq: Option<real>, band: Option<Band>) {
    if freq.Some? && BandForFreq(freq.value).Some? then band == BandForFreq(freq.value)
    else band == if AsksForRadio(requested) then None else RequestedBand(requested)
  }

  // ------------------------------------------------------------ what a call adds to the trace

  predicate Ended(t: Trace) {
    t != [] && t[|t| - 1] == RunEnd
  }

  /** The history is kept and exactly one whole run follows it. */
  predicate AddsOneRun(before: Trace, after: Trace) {
    before <= after && after != [] && TuneLaws.OneRun(after, |before|, |after| - 1)
  }

  /** Since position `b`, the radio was seen on the frequency, or the search for it ended with
      none: it could not be read, or it never came. */
  predicate Shown(t: Trace, b: nat, freq: Option<real>) {
    match freq
    case Some(f) => exists k :: b < k < |t| && t[k] == SawFreq(At(f))
    case None => exists k :: b < k < |t| && (t[k] == SawFreq(Unreadable) || t[k].SawStop? || t[k].TimedOut?)
  }

  predicate NoBorder(t: Trace, from: int, to: int) {
    forall k :: from < k < to && 0 <= k < |t| ==> !t[k].RunBegin? && !t[k].RunEnd?
  }

  lemma RunBorders(q: State, e: Event)
    requires Step(q, e) != Broken
    ensures e.RunBegin? ==> q == Idle
    ensures e.RunEnd? ==> Step(q, e) == Idle
    ensures Step(q, e) != Idle && q == Idle ==> e.RunBegin?
  {
    if q.InCycle? {
      hide StepOutside;
    } else {
      hide StepInCycle;
    }
  }

  lemma SearchMoves(q: State, e: Event)
    requires Step(q, e) != Broken
    ensures e.SawFreq? ==> Searching(q)
    ensures Searching(Step(q, e)) || Step(q, e).Begun? ==>
              e.RunBegin? || ((Searching(q) || q.Begun?) && Found(q, e).None?)
  {
    hide Step;
    if q.InCycle? {
      NoSearchInCycle(q, e);
    } else if Entering(q) {
      SearchEntering(q, e);
    } else {
      NoSearchLeaving(q, e);
    }
  }

  lemma SearchEntering(q: State, e: Event)
    requires Entering(q) && Step(q, e) != Broken
    ensures e.SawFreq? ==> Searching(q)
    ensures Searching(Step(q, e)) || Step(q, e).Begun? ==>
              e.RunBegin? || ((Searching(q) || q.Begun?) && Found(q, e).None?)
  {
    hide StepInCycle, StepLeaving;
    if Arriving(q) {
      hide StepArming;
    } else {
      hide StepArriving;
    }
  }

  lemma NoSearchLeaving(q: State, e: Event)
    requires !Entering(q) && !q.InCycle? && Step(q, e) != Broken
    ensures !e.SawFreq? && !Searching(Step(q, e)) && !Step(q, e).Begun?
  {
    hide StepInCycle, StepEntering;
  }

  lemma NoSearchInCycle(q: State, e: Event)
    requires q.InCycle? && Step(q, e) != Broken
    ensures !e.SawFreq? && !Searching(Step(q, e)) && !Step(q, e).Begun?
  {
    hide StepOutside;
  }

  lemma NothingYet()
    ensures Run([]) == Idle && CourseOf([]) == Course([], None, [], false)
  {
  }

  /** An unfinished run reaches back to the last RunBegin, with no border since. */
  lemma {:induction false} OpenRun(t: Trace)
    requires Accepted(t) && Run(t) != Idle
    ensures var b := |CourseOf(t).before|;
            b < |t| && t[..b] == CourseOf(t).before && t[b] == RunBegin && NoBorder(t, b, |t|)
  {
    NothingYet();
    assert t != [];
    hide Run, Step, CourseOf, NoBorder;
    var n := |t| - 1;
    AcceptedPrefix(t, n);
    AcceptedPrefix(t, n + 1);
    assert t[..n + 1] == t;
    RunBorders(Run(t[..n]), t[n]);
    BeforeNext(t);
    if t[n].RunBegin? {
      OpensHere(t, n);
    } else {
      OpenRun(t[..n]);
      StillOpen(t, |CourseOf(t).before|);
    }
  }

  lemma BeforeNext(t: Trace)
    requires t != []
    ensures CourseOf(t).before == if t[|t| - 1].RunBegin? then t[..|t| - 1] else CourseOf(t[..|t| - 1]).before
  {
    hide Run, Setback, Found;
  }

  lemma OpensHere(t: Trace, n: nat)
    requires n + 1 == |t|
    ensures NoBorder(t, n, |t|)
  {
  }

  lemma StillOpen(t: Trace, b: nat)
    requires b < |t| - 1 && NoBorder(t[..|t| - 1], b, |t| - 1)
    requires !t[|t| - 1].RunBegin? && !t[|t| - 1].RunEnd?
    ensures NoBorder(t, b, |t|) && t[..b] == t[..|t| - 1][..b] && t[b] == t[..|t| - 1][b]
  {
  }

  lemma NoteBefore(c: Course, t: Trace, q: State, e: Event)
    ensures Note(c, t, q, e).before == if e.RunBegin? then t else c.before
    ensures Note(c, t, q, e).sought == if e.RunBegin? then None else if Found(q, e).Some? then Found(q, e) else c.sought
  {
  }

  /** A trace that ends a run ends exactly one since the run before. */
  lemma OneRunAdded(t: Trace)
    requires Accepted(t) && Ended(t)
    ensures AddsOneRun(CourseOf(t).before, t)
  {
    hide Run, Step, Note;
    var n := |t| - 1;
    AcceptedPrefix(t, n);
    AcceptedPrefix(t, n + 1);
    assert t[..n + 1] == t;
    TuneLaws.EndsReleased(Run(t[..n]));
    OpenRun(t[..n]);
    NoteBefore(CourseOf(t[..n]), t[..n], Run(t[..n]), t[n]);
  }

  lemma ShownLater(t: Trace, e: Event, b: nat, freq: Option<real>)
    requires Shown(t, b, freq)
    ensures Shown(t + [e], b, freq)
  {
    var k :| b < k < |t| && match freq {
      case Some(f) => t[k] == SawFreq(At(f))
      case None => t[k] == SawFreq(Unreadable) || t[k].SawStop? || t[k].TimedOut?
    };
    assert (t + [e])[k] == t[k];
  }

  lemma ShownNow(t: Trace, e: Event, q: State, b: nat)
    requires Found(q, e).Some? && b < |t|
    ensures Shown(t + [e], b, Found(q, e).value)
  {
    assert (t + [e])[|t|] == e;
  }

  /** What the search came to is there to be seen in the trace, and a frequency seen anywhere
      in the run is what the search came to. */
  lemma {:induction false} SoughtIsShown(t: Trace)
    requires Accepted(t) && |CourseOf(t).before| < |t|
    ensures var c := CourseOf(t);
            && (c.sought.Some? ==> Shown(t, |c.before|, c.sought.value))
            && (forall k :: |c.before| < k < |t| && t[k].SawFreq? && t[k].reading.At? ==>
                  c.sought == Some(Some(t[k].reading.mHz)))
            && (Searching(Run(t)) || Run(t).Begun? ==> c.sought == None)
  {
    hide Run, Step, Note, Setback, Shown;
    var n := |t| - 1;
    var front, e := t[..n], t[n];
    var q := Run(front);
    AcceptedPrefix(t, n);
    AcceptedPrefix(t, n + 1);
    assert t[..n + 1] == t && front + [e] == t;
    RunBorders(q, e);
    SearchMoves(q, e);
    NothingYet();
    NoteBefore(CourseOf(front), front, q, e);
    if !e.RunBegin? {
      BeforeIsPast(front);
      assert n == 0 ==> front == [];
      if |CourseOf(front).before| < n {
        SoughtIsShown(front);
        if Found(q, e).Some? {
          ShownNow(front, e, q, |CourseOf(front).before|);
        } else if CourseOf(front).sought.Some? {
          ShownLater(front, e, |CourseOf(front).before|, CourseOf(front).sought.value);
        }
      }
    }
  }
  lemma {:induction false} BeforeIsPast(t: Trace)
    ensures var b := |CourseOf(t).before|;
            && (t != [] ==> b < |t|) && CourseOf(t).before <= t
            && (forall k :: b < k < |t| ==> !t[k].RunBegin?)
  {
    NothingYet();
    if t != [] {
      hide CourseOf, Run, Step;
      var n := |t| - 1;
      var front := t[..n];
      BeforeNext(t);
      if !t[n].RunBegin? {
        BeforeIsPast(front);
        assert front == [] ==> CourseOf(front).before == [];
        forall k | |CourseOf(t).before| < k < |t|
          ensures !t[k].RunBegin?
        {
          assert k < n ==> front[k] == t[k];
        }
      }
    }
  }

  lemma {:induction false} FreqsGrow(t: Trace, m: nat, n: nat)
    requires m <= n <= |t| && (forall k :: m <= k < n ==> !t[k].RunBegin?)
    ensures TallyOf(t[..m]).freqs <= TallyOf(t[..n]).freqs
  {
    if m < n {
      FreqsGrow(t, m, n - 1);
      assert t[..n][..n - 1] == t[..n - 1];
    }
  }

  /** Each set frequency of the run stands in the tally, in order. */
  lemma FreqIsTallied(t: Trace, k: nat)
    requires |CourseOf(t).before| < k < |t| && t[k].SetFreq?
    ensures var i, fs := |TallyOf(t[..k]).freqs|, TallyOf(t).freqs;
            i < |fs| && fs[i] == t[k].target && |TallyOf(t[..k + 1]).freqs| == i + 1
  {
    BeforeIsPast(t);
    FreqsGrow(t, k + 1, |t|);
    hide CourseOf, Run;
    var now := t[..k + 1];
    assert now[..k] == t[..k] && now[k] == t[k] && t[..|t|] == t;
    assert TallyOf(now) == Count(TallyOf(now[..k]), t[k]);
  }

  predicate IsCenter(b: Band, mHz: real) {
    exists c :: c in Centers(b) && mHz == c as real / 1000.0
  }

  /** The radio was seen inside a band. */
  predicate SeenIn(e: Event, b: Band) {
    e.SawFreq? && e.reading.At? && Contains(b, e.reading.mHz)
  }

  lemma SweptFreqs(b: Band, fs: seq<real>)
    requires fs <= InMHz(InBand(Centers(b), b))
    ensures forall i :: 0 <= i < |fs| ==> Contains(b, fs[i]) && IsCenter(b, fs[i])
    ensures forall i, j :: 0 <= i < j < |fs| ==> fs[i] < fs[j]
  {
    var swept := InBand(Centers(b), b);
    CentersAscend(b);
    InBandExact(Centers(b), b);
    forall i | 0 <= i < |fs|
      ensures Contains(b, fs[i]) && IsCenter(b, fs[i])
    {
      assert swept[i] in swept && fs[i] == InMHz(swept)[i];
    }
    forall i, j | 0 <= i < j < |fs|
      ensures fs[i] < fs[j]
    {
      assert swept[i] < swept[j];
      assert fs[i] == InMHz(swept)[i] && fs[j] == InMHz(swept)[j];
    }
  }

  /** In the trace a sweep leaves, every frequency set since the run began is a centre of the
      resolved band inside its amateur edges, in ascending order and so at most once; and no
      other band contains a frequency the radio was seen on. */
  lemma SweepStaysInBand(t: Trace, requested: string, b: Band, ok: bool)
    requires Accepted(t) && CourseOf(t).sought.Some?
    requires BandRule(requested, CourseOf(t).sought.value, Some(b))
    requires SweepEnds(ok, TallyOf(t), InBand(Centers(b), b))
    ensures var from := |CourseOf(t).before|;
            && (forall k :: from < k < |t| && t[k].SetFreq? ==> Contains(b, t[k].target) && IsCenter(b, t[k].target))
            && (forall j, k :: from < j < k < |t| && t[j].SetFreq? && t[k].SetFreq? ==> t[j].target < t[k].target)
            && (forall k, other :: from < k < |t| && SeenIn(t[k], other) ==> other == b)
  {
    hide InBand, Centers, Contains, IsCenter, Run, TallyOf, CourseOf;
    var c, fs := CourseOf(t), TallyOf(t).freqs;
    SweptFreqs(b, fs);
    BeforeIsPast(t);
    forall k | |c.before| < k < |t| && t[k].SetFreq?
      ensures Contains(b, t[k].target) && IsCenter(b, t[k].target)
    {
      FreqIsTallied(t, k);
    }
    forall j, k | |c.before| < j < k < |t| && t[j].SetFreq? && t[k].SetFreq?
      ensures t[j].target < t[k].target
    {
      FreqIsTallied(t, j);
      FreqIsTallied(t, k);
      FreqsGrow(t, j + 1, k);
    }
    if |c.before| < |t| {
      SoughtIsShown(t);
      forall k, other | |c.before| < k < |t| && SeenIn(t[k], other)
        ensures other == b
      {
        BandForFreqUnique(t[k].reading.mHz);
      }
    }
  }

  // ------------------------------------------------------------ which band a request names

  /** A request spells a band by its name or by the number alone, in any case and with space
      around it. */
  predicate Spells(requested: string, b: Band) {
    var req := Lower(Strip(requested));
    req == Name(b) || req + "m" == Name(b)
  }

  lemma NamesEndInOneM(b: Band)
    ensures var n := Name(b); 2 <= |n| <= 4 && n[|n| - 1] == 'm' && n[|n| - 2] != 'm' && IsDigit(n[0])
  {
  }

  lemma NamedExactly(key: string, b: Band)
    ensures Named(key) == Some(b) <==> key == Name(b)
  {
    LowerOfName(b);
  }

  lemma NotBothSpellings(key: string, a: Band, b: Band)
    requires key == Name(a)
    ensures key + "m" != Name(b)
  {
    NamesEndInOneM(a);
    NamesEndInOneM(b);
    assert (key + "m")[|key| - 1] == key[|key| - 1] == 'm';
  }

  lemma RequestSpells(requested: string, b: Band)
    ensures RequestedBand(requested) == Some(b) <==> Spells(requested, b)
  {
    hide Named, Name, Strip;
    var req := Lower(Strip(requested));
    NamedExactly(req, b);
    NamedExactly(req + "m", b);
    if Named(req).Some? {
      NamedExactly(req, Named(req).value);
      NotBothSpellings(req, Named(req).value, b);
    }
  }

  /** A request for whatever band the radio is on spells none. */
  lemma AskingSpellsNothing(requested: string, b: Band)
    requires Lower(Strip(requested)) in ["", "auto", "current"]
    ensures !Spells(requested, b)
  {
    NamesEndInOneM(b);
  }

  /** Which band a sweep takes: the one the radio's frequency lies in, and if it lies in none or
      is not known, the one the request spells. */
  lemma BandIsRadiosOrRequested(requested: string, freq: Option<real>, band: Option<Band>)
    requires BandRule(requested, freq, band)
    ensures forall b :: freq.Some? && Contains(b, freq.value) ==> band == Some(b)
    ensures (freq.None? || !exists b :: Contains(b, freq.value)) ==>
              forall b :: band == Some(b) <==> Spells(requested, b)
  {
    hide Contains, Spells, BandForFreq, RequestedBand;
    if freq.Some? {
      BandForFreqUnique(freq.value);
    }
    forall b
      ensures RequestedBand(requested) == Some(b) <==> Spells(requested, b)
      ensures AsksForRadio(requested) ==> !Spells(requested, b)
    {
      RequestSpells(requested, b);
      if AsksForRadio(requested) {
        AskingSpellsNothing(requested, b);
      }
    }
  }

  lemma LookupIsInBand(b: Band)
    ensures Lookup(Name(b), true) == Some(InBand(Centers(b), b))
  {
    LowerOfName(b);
  }
}
