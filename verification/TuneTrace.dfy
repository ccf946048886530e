/**
 Everything a tune or sweep does that can be seen from outside, as a trace of events, and
 the order in which spe/tune_orchestrator.py lets them happen, as a deterministic automaton.
 TuneOrchestrator's methods are proved to keep to it; TuneLaws says what an accepted trace
 guarantees.
 */
module TuneTrace {
  import opened Sequences
  import opened Text
  import opened StatusLine
  import opened BandTable

  datatype Phase =
    | STARTED | PREFLIGHT_OK | STBY_SET | OPER_RESTORED | VFO_SAVED | MODE_SET | FREQ_SET
    | TUNE_SENT | LED_ON | CARRIER_ON | LED_OFF | CARRIER_OFF | VFO_RESTORED
    | SUCCESS | FAIL | ABORT | BAND_CHECKED | SWEEP_STARTED | SWEEP_STEP | SWEEP_DONE

  /** What a look at the radio's cached frequency shows. */
  datatype Reading = NotYet | Unreadable | At(mHz: real)

  /** The operator's frequency and mode, as far as the radio has reported them. */
  datatype Vfo = Vfo(freq: Option<real>, mode: Option<string>)

  /** One observable step. Radio calls carry whether they returned or raised. `SawOp`, `SawLed`
      and `SawFreq` are reads of the amplifier's and radio's state, `SawStop` and `TimedOut`
      the two ways a wait can end without a match. `Refused` is a second call turned away. */
  datatype Event =
    | RunBegin | RunEnd | CycleBegin | CycleEnd(done: bool) | Refused
    | Say(phase: Phase)
    | SawOp(op: OpStatus) | SawLed(lit: bool) | SawFreq(reading: Reading) | SawStop | TimedOut
    | SendOper | SendTune
    | Connect(ok: bool) | Snapshot(snap: Option<Vfo>) | SetMode(mode: string, ok: bool)
    | SetFreq(target: real, ok: bool) | SetPower(ok: bool) | Carrier(on: bool, ok: bool)
    | RestoreVfo(vfo: Vfo, ok: bool) | Disconnect

  /** Where one cycle stands. `Cut` and later: the carrier has been switched off again, or
      never came on; `done` is whether the amplifier finished tuning. */
  datatype Stage =
    | Fresh | Started | SeenStby | Dark(tuned: bool) | Powered | Sent | Lit
    | On | Swept | SweptSaid | OnFailed | OnFailedSaid
    | Cut(done: bool, ok: bool) | Failing | Closed(done: bool) | Over(done: bool) | Off

  function CycleStep(c: Stage, e: Event): Stage {
    if e.Refused? then c
    else match c
      case Fresh => if e == Say(STARTED) then Started else Off
      case Started => if e.SawOp? then (if e.op.Stby? then SeenStby else Failing) else Off
      case SeenStby => if e.SawLed? then (if e.lit then Failing else Dark(false)) else Off
      case Dark(tuned) =>
        if e == Say(PREFLIGHT_OK) || e == Say(FREQ_SET) then c
        else if e.SetFreq? && !tuned then (if e.ok then Dark(true) else Failing)
        else if e.SetPower? then (if e.ok then Powered else Failing)
        else Off
      case Powered => if e == SendTune then Sent else Off
      case Sent =>
        if e == Say(TUNE_SENT) then c
        else if e.SawLed? then (if e.lit then Lit else c)
        else if e.SawStop? || e.TimedOut? then Failing
        else Off
      case Lit =>
        if e == Say(LED_ON) then c
        else if e.Carrier? && e.on then (if e.ok then On else Failing)
        else Off
      case On =>
        if e == Say(CARRIER_ON) then c
        else if e.SawLed? then (if e.lit then c else Swept)
        else if e.SawStop? || e.TimedOut? then OnFailed
        else Off
      case Swept => if e == Say(LED_OFF) then SweptSaid else Off
      case SweptSaid => if e.Carrier? && !e.on then Cut(true, e.ok) else Off
      case OnFailed => if e == Say(FAIL) || e == Say(ABORT) then OnFailedSaid else Off
      case OnFailedSaid => if e.Carrier? && !e.on then Cut(false, e.ok) else Off
      case Cut(done, ok) => if e == Say(if ok then CARRIER_OFF else FAIL) then Closed(done) else Off
      case Failing => if e == Say(FAIL) || e == Say(ABORT) then Closed(false) else Off
      case Closed(done) => if e == Say(if done then SUCCESS else FAIL) then Over(done) else Off
      case Over(_) => Off
      case Off => Off
  }

  const TUNE_MODE := "CW"

  /** The mode is known and belongs to no CW family. */
  predicate NeedsCw(mode: Option<string>) {
    mode.Some? && !(TUNE_MODE <= Upper(mode.value))
  }

  /** Where a whole run stands. `saved`: the operator's VFO where it is known and must be put
      back; `Unswitched`: its mode must first be changed to CW, `ModeLost`: and could not be; `owe`: the amplifier was taken out of OPERATE and must be handed back. */
  datatype State =
    | Idle | Begun | Acquired | Looking | Sought | Banded | Unswitched(vfo: Vfo) | ModeLost(vfo: Vfo) | Snapped(saved: Option<Vfo>)
    | Armed(saved: Option<Vfo>) | Calm(saved: Option<Vfo>) | Toggled(saved: Option<Vfo>) | Dropped(saved: Option<Vfo>)
    | Quitting(saved: Option<Vfo>)
    | Ready(saved: Option<Vfo>, owe: bool) | InCycle(saved: Option<Vfo>, owe: bool, cycle: Stage)
    | Unwinding(owe: bool) | Owing | Retoggled | Back | GaveUp | Settled | Released
    | Broken

  function Unwind(owe: bool, e: Event): State {
    match e
    case Say(p) => if p == VFO_RESTORED || p == FAIL || p == ABORT then Unwinding(owe) else Broken
    case SawOp(op) => if !owe then Broken else if op.Oper? then Back else Owing
    case Disconnect => if owe then Broken else Released
    case _ => Broken
  }

  function Leave(saved: Option<Vfo>, owe: bool, e: Event): State {
    if saved.None? then Unwind(owe, e)
    else if e.RestoreVfo? && e.vfo == saved.value then Unwinding(owe)
    else Broken
  }

  function StepInCycle(q: State, e: Event): State
    requires q.InCycle?
  {
    if q.cycle.Over? && e == CycleEnd(q.cycle.done) then Ready(q.saved, q.owe)
    else if CycleStep(q.cycle, e) == Off then Broken
    else q.(cycle := CycleStep(q.cycle, e))
  }

  function AfterSnapshot(snap: Option<Vfo>): State {
    if snap.Some? && NeedsCw(snap.value.mode) then Unswitched(snap.value) else Snapped(snap)
  }

  function StepArriving(q: State, e: Event): State {
    match q
      case Idle => if e == RunBegin then Begun else Broken
      case Begun =>
        if !e.Connect? then Broken else if e.ok then Acquired else Unwinding(false)
      case Acquired =>
        if e.Snapshot? then AfterSnapshot(e.snap)
        else if e == SawFreq(NotYet) then Looking
        else if e.SawFreq? || e.SawStop? then Sought
        else Broken
      case Looking =>
        if e == SawFreq(NotYet) then q
        else if e.SawFreq? || e.SawStop? || e.TimedOut? then Sought
        else Broken
      case Sought =>
        if e == Say(BAND_CHECKED) then Banded
        else if e == Say(FAIL) then Unwinding(false)
        else Broken
      case Banded => if e.Snapshot? then AfterSnapshot(e.snap) else Broken
      case Unswitched(vfo) =>
        if e == Say(VFO_SAVED) then q
        else if e.SetMode? && e.mode == TUNE_MODE then (if e.ok then Snapped(Some(vfo)) else ModeLost(vfo))
        else Broken
      case ModeLost(vfo) => if e == Say(FAIL) then q else Leave(Some(vfo), false, e)
      case _ => Broken
  }

  function StepArming(q: State, e: Event): State {
    match q
      case Snapped(saved) =>
        if e == Say(VFO_SAVED) || e == Say(MODE_SET) || e == Say(FAIL) then q
        else if e.SawOp? then (if e.op.Oper? then Armed(saved) else Calm(saved))
        else Leave(saved, false, e)
      case Armed(saved) => if e == SendOper then Toggled(saved) else Broken
      case Calm(saved) => if e == Say(STBY_SET) then Ready(saved, false) else Broken
      case Toggled(saved) =>
        if e.SawOp? then (if e.op.Stby? then Dropped(saved) else q)
        else if e.SawStop? || e.TimedOut? then Quitting(saved)
        else Broken
      case Dropped(saved) => if e == Say(STBY_SET) then Ready(saved, true) else Broken
      case Quitting(saved) =>
        if e == Say(FAIL) || e == Say(ABORT) then q else Leave(saved, false, e)
      case _ => Broken
  }

  /** The radio is not yet as the tune wants it. */
  predicate Arriving(q: State) {
    q.Idle? || q.Begun? || q.Acquired? || q.Looking? || q.Sought? || q.Banded? || q.Unswitched? || q.ModeLost?
  }

  /** The amplifier is not yet ready for a cycle. */
  predicate Entering(q: State) {
    Arriving(q) || q.Snapped? || q.Armed? || q.Calm? || q.Toggled? || q.Dropped? || q.Quitting?
  }

  function StepEntering(q: State, e: Event): State {
    if Arriving(q) then StepArriving(q, e) else StepArming(q, e)
  }

  function StepLeaving(q: State, e: Event): State {
    match q
      case Ready(saved, owe) =>
        if e.Say? && (e.phase.SWEEP_STARTED? || e.phase.SWEEP_STEP? || e.phase.SWEEP_DONE?
                      || e.phase.FAIL? || e.phase.ABORT?) then q
        else if e.SawStop? then q
        else if e == CycleBegin then InCycle(saved, owe, Fresh)
        else Leave(saved, owe, e)
      case Unwinding(owe) => Unwind(owe, e)
      case Owing => if e == SendOper then Retoggled else Broken
      case Retoggled =>
        if e.SawOp? then (if e.op.Oper? then Back else q)
        else if e.TimedOut? then GaveUp
        else Broken
      case Back => if e == Say(OPER_RESTORED) then Settled else Broken
      case GaveUp => if e == Say(FAIL) then Settled else Broken
      case Settled => if e == Disconnect then Released else Broken
      case Released => if e == RunEnd then Idle else Broken
      case _ => Broken
  }

  function StepOutside(q: State, e: Event): State {
    if Entering(q) then StepEntering(q, e) else StepLeaving(q, e)
  }

  function Step(q: State, e: Event): State {
    if e.Refused? then q
    else if q.InCycle? then StepInCycle(q, e)
    else StepOutside(q, e)
  }

  type Trace = seq<Event>

  function Run(t: Trace): State {
    if t == [] then Idle else Step(Run(t[..|t| - 1]), t[|t| - 1])
  }

  lemma RunSnoc(t: Trace, e: Event)
    ensures Run(t + [e]) == Step(Run(t), e)
  {
    FrontOfSnoc(t, e);
  }

  /** A trace that has not gone wrong anywhere. */
  predicate Accepted(t: Trace) {
    Run(t) != Broken
  }

  lemma {:induction false} AcceptedPrefix(t: Trace, n: nat)
    requires Accepted(t) && n <= |t|
    ensures Accepted(t[..n])
    ensures n < |t| ==> Run(t[..n + 1]) == Step(Run(t[..n]), t[n])
    decreases |t| - n
  {
    if n < |t| {
      AcceptedPrefix(t, n + 1);
      assert t[..n + 1][..n] == t[..n];
    } else {
      assert t[..n] == t;
    }
  }
}
