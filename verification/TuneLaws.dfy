/**
 What an accepted trace of the tune orchestrator guarantees, said about the positions of
 events and not about the automaton.
 */
module TuneLaws {
  import opened Sequences
  import opened Text
  import opened StatusLine
  import opened TuneTrace

  // ------------------------------------------------------------ the carrier bracket

  /** Positions, in the current cycle, of what must come before the carrier. */
  datatype Evidence = Evidence(begin: nat, stby: nat, dark: nat, power: nat, tune: nat, lit: nat)

  predicate SameCycle(t: Trace, from: int, to: int) {
    forall k :: from < k < to && 0 <= k < |t| ==> !t[k].CycleBegin? && !t[k].CycleEnd?
  }

  function Progress(c: Stage): nat {
    match c
    case SeenStby => 1
    case Dark(_) => 2
    case Powered => 3
    case Sent => 4
    case Lit => 5
    case _ => 0
  }

  predicate Shows(t: Trace, n: nat, v: Evidence) {
    && v.begin < |t| && t[v.begin] == CycleBegin && SameCycle(t, v.begin, |t|)
    && (n >= 1 ==> v.begin < v.stby < |t| && t[v.stby] == SawOp(Stby))
    && (n >= 2 ==> v.stby < v.dark < |t| && t[v.dark] == SawLed(false))
    && (n >= 3 ==> v.dark < v.power < |t| && t[v.power] == SetPower(true))
    && (n >= 4 ==> v.power < v.tune < |t| && t[v.tune] == SendTune)
    && (n >= 5 ==> v.tune < v.lit < |t| && t[v.lit] == SawLed(true))
  }

  lemma ShowsLater(t: Trace, e: Event, n: nat, v: Evidence)
    requires Shows(t, n, v) && !e.CycleBegin? && !e.CycleEnd?
    ensures Shows(t + [e], n, v)
  {
  }

  /** What one event of a cycle can do to its progress. */
  lemma ProgressStep(c: Stage, e: Event)
    requires CycleStep(c, e) != Off
    ensures !e.CycleBegin? && !e.CycleEnd?
    ensures Progress(c) <= 5 && Progress(CycleStep(c, e)) <= Progress(c) + 1
    ensures Progress(CycleStep(c, e)) == Progress(c) + 1 ==>
              e == match Progress(c) {
                case 0 => SawOp(Stby)
                case 1 => SawLed(false)
                case 2 => SetPower(true)
                case 3 => SendTune
                case _ => SawLed(true)
              }
  {
  }

  lemma IntoCycle(q: State, e: Event)
    requires Step(q, e).InCycle? && (q.InCycle? ==> q.cycle != Off)
    ensures !q.InCycle? ==> e == CycleBegin && Step(q, e).cycle == Fresh
    ensures q.InCycle? ==> Step(q, e).cycle == CycleStep(q.cycle, e) != Off
  {
    if q.InCycle? {
      WithinCycle(q, e);
    } else {
      hide StepInCycle;
    }
  }

  lemma WithinCycle(q: State, e: Event)
    requires q.InCycle? && q.cycle != Off && Step(q, e).InCycle?
    ensures Step(q, e).cycle == CycleStep(q.cycle, e) != Off
  {
    hide StepOutside;
  }

  lemma {:induction false} EvidenceOf(t: Trace) returns (v: Evidence)
    requires Run(t).InCycle?
    ensures Run(t).cycle != Off
    ensures Shows(t, Progress(Run(t).cycle), v)
  {
    hide Step, CycleStep, Progress;
    var front, e, n := t[..|t| - 1], t[|t| - 1], |t| - 1;
    var q := Run(front);
    assert front + [e] == t;
    if !q.InCycle? {
      IntoCycle(q, e);
      NoProgress();
      v := Evidence(n, 0, 0, 0, 0, 0);
    } else {
      var w := EvidenceOf(front);
      IntoCycle(q, e);
      ProgressStep(q.cycle, e);
      ShowsLater(front, e, Progress(q.cycle), w);
      v := ShowsMore(front, e, Progress(q.cycle), Progress(Run(t).cycle), w);
    }
  }

  lemma NoProgress()
    ensures Progress(Fresh) == 0
  {
  }

  lemma ShowsMore(t: Trace, e: Event, n: nat, m: nat, v: Evidence) returns (w: Evidence)
    requires Shows(t + [e], n, v) && m <= n + 1 && n <= 5
    requires m == n + 1 ==>
               e == match n {
                 case 0 => SawOp(Stby)
                 case 1 => SawLed(false)
                 case 2 => SetPower(true)
                 case 3 => SendTune
                 case _ => SawLed(true)
               }
    requires Shows(t, n, v)
    ensures Shows(t + [e], m, w)
  {
    w := v;
    if m == n + 1 {
      match n {
        case 0 => w := v.(stby := |t|);
        case 1 => w := v.(dark := |t|);
        case 2 => w := v.(power := |t|);
        case 3 => w := v.(tune := |t|);
        case _ => w := v.(lit := |t|);
      }
    }
  }

  /** Every attempt to switch the carrier on follows, in the same cycle and in this order, the
      amplifier seen in STBY, its LED seen dark, the tune power set, TUNE sent and the LED seen
      lit. */
  lemma CarrierIsPrepared(t: Trace, i: nat) returns (v: Evidence)
    requires Accepted(t) && i < |t| && t[i].Carrier? && t[i].on
    ensures v.begin < v.stby < v.dark < v.power < v.tune < v.lit < i
    ensures t[v.begin] == CycleBegin && SameCycle(t, v.begin, i)
    ensures t[v.stby] == SawOp(Stby) && t[v.dark] == SawLed(false)
    ensures t[v.power] == SetPower(true) && t[v.tune] == SendTune && t[v.lit] == SawLed(true)
  {
    hide Step, Run;
    AcceptedPrefix(t, i);
    AcceptedPrefix(t, i + 1);
    OnlyFromLit(Run(t[..i]), t[i]);
    v := EvidenceOf(t[..i]);
  }

  lemma OnlyFromLit(q: State, e: Event)
    requires Step(q, e) != Broken && e.Carrier? && e.on
    ensures q.InCycle? && q.cycle == Lit
    ensures e.ok ==> Keyed(Step(q, e))
  {
  }

  /** The carrier is on. */
  predicate Keyed(q: State) {
    q.InCycle? && KeyedStage(q.cycle)
  }

  /** Events that move the radio, the amplifier or the run on. */
  predicate Touches(e: Event) {
    e.SetFreq? || e.SetMode? || e.SetPower? || e.RestoreVfo? || e.SendOper? || e.SendTune?
    || e.Carrier? || e.Connect? || e.Disconnect? || e.CycleBegin? || e.CycleEnd?
    || e.RunBegin? || e.RunEnd?
  }

  lemma KeyedStep(q: State, e: Event)
    requires Keyed(q) && Step(q, e) != Broken
    ensures (Keyed(Step(q, e)) && !Touches(e)) || (e.Carrier? && !e.on)
  {
    hide StepOutside;
  }

  lemma {:induction false} NextOff(t: Trace, p: nat) returns (j: nat)
    requires Run(t) == Idle && p <= |t| && Keyed(Run(t[..p]))
    ensures p <= j < |t| && t[j].Carrier? && !t[j].on
    ensures forall k :: p <= k < j ==> !Touches(t[k])
    decreases |t| - p
  {
    hide Step, Run;
    assert t[..|t|] == t;
    AcceptedPrefix(t, p);
    AcceptedPrefix(t, p + 1);
    KeyedStep(Run(t[..p]), t[p]);
    if t[p].Carrier? {
      j := p;
    } else {
      j := NextOff(t, p + 1);
    }
  }

  lemma {:induction false} LastOn(t: Trace) returns (i: nat)
    requires Accepted(t) && Keyed(Run(t))
    ensures i < |t| && t[i] == Carrier(true, true)
    ensures forall k :: i < k < |t| ==> !t[k].Carrier?
  {
    var front, e := t[..|t| - 1], t[|t| - 1];
    IntoKeyed(Run(front), e);
    if e.Carrier? {
      i := |t| - 1;
    } else {
      i := LastOn(front);
    }
  }

  predicate KeyedStage(c: Stage) {
    c.On? || c.Swept? || c.SweptSaid? || c.OnFailed? || c.OnFailedSaid?
  }

  lemma IntoKeyedStage(c: Stage, e: Event)
    requires KeyedStage(CycleStep(c, e))
    ensures e == Carrier(true, true) || (KeyedStage(c) && !e.Carrier?)
  {
  }

  lemma IntoKeyed(q: State, e: Event)
    requires Keyed(Step(q, e))
    ensures e == Carrier(true, true) || (Keyed(q) && !e.Carrier?)
  {
    hide CycleStep;
    if q.InCycle? {
      StageOf(q, e);
      IntoKeyedStage(q.cycle, e);
    }
  }

  lemma StageOf(q: State, e: Event)
    requires q.InCycle? && Keyed(Step(q, e))
    ensures Step(q, e).cycle == CycleStep(q.cycle, e)
  {
  }

  lemma OffOnlyFromKeyed(q: State, e: Event)
    requires Step(q, e) != Broken && e.Carrier? && !e.on
    ensures Keyed(q)
  {
  }

  /** Each attempt to switch off answers a carrier that came on, with no other carrier call
      in between. */
  lemma OffFollowsOn(t: Trace, j: nat) returns (i: nat)
    requires Accepted(t) && j < |t| && t[j].Carrier? && !t[j].on
    ensures i < j && t[i] == Carrier(true, true)
    ensures forall k :: i < k < j ==> !t[k].Carrier?
  {
    hide Step, Run;
    AcceptedPrefix(t, j);
    AcceptedPrefix(t, j + 1);
    OffOnlyFromKeyed(Run(t[..j]), t[j]);
    i := LastOn(t[..j]);
  }

  /** Every carrier that came on is followed by an attempt to switch it off before the
      orchestrator does anything else to the radio, the amplifier or the run, and by no second
      such attempt until another carrier has come on. */
  lemma CarrierIsCut(t: Trace, i: nat) returns (j: nat)
    requires Run(t) == Idle && i < |t| && t[i] == Carrier(true, true)
    ensures i < j < |t| && t[j].Carrier? && !t[j].on
    ensures forall k :: i < k < j ==> !Touches(t[k])
    ensures forall k :: j < k < |t| && t[k].Carrier? && !t[k].on ==>
              exists m :: j < m < k && t[m] == Carrier(true, true)
  {
    hide Step, Run;
    AcceptedPrefix(t, i);
    AcceptedPrefix(t, i + 1);
    OnlyFromLit(Run(t[..i]), t[i]);
    j := NextOff(t, i + 1);
    forall k | j < k < |t| && t[k].Carrier? && !t[k].on
      ensures exists m :: j < m < k && t[m] == Carrier(true, true)
    {
      var m := OffFollowsOn(t, k);
      assert m > j;
    }
  }

  // ------------------------------------------------------------ one run

  /** The events from `b` to `e` are one run, from its start to its end. */
  predicate OneRun(t: Trace, b: nat, e: nat) {
    && Accepted(t) && b < e < |t| && t[b] == RunBegin && t[e] == RunEnd
    && (forall k :: b < k < e ==> !t[k].RunBegin? && !t[k].RunEnd?)
  }

  lemma RunStarts(t: Trace, b: nat)
    requires Accepted(t) && b < |t| && t[b] == RunBegin
    ensures Run(t[..b + 1]) == Begun
  {
    hide Step, Run;
    AcceptedPrefix(t, b);
    AcceptedPrefix(t, b + 1);
    BeginsFromIdle(Run(t[..b]));
  }

  lemma BeginsFromIdle(q: State)
    requires Step(q, RunBegin) != Broken
    ensures Step(q, RunBegin) == Begun
  {
  }

  predicate BeforeOp(q: State) {
    Early(q) || q.Unswitched? || q.ModeLost? || q.Snapped? || q == Unwinding(false) || q.Released?
  }

  predicate NoDebt(q: State) {
    q.Calm? || (q.Ready? && !q.owe) || (q.InCycle? && !q.owe) || q == Unwinding(false) || q.Released?
  }

  lemma BeforeOpStep(q: State, e: Event)
    requires BeforeOp(q) && Step(q, e) != Broken && !e.RunEnd?
    ensures !e.SendOper?
    ensures !e.SawOp? ==> BeforeOp(Step(q, e))
    ensures e == SawOp(Stby) ==> NoDebt(Step(q, e))
  {
    hide StepInCycle;
    if Arriving(q) {
      hide StepArming, StepLeaving;
    } else {
      hide StepArriving;
    }
  }

  lemma NoDebtStep(q: State, e: Event)
    requires NoDebt(q) && Step(q, e) != Broken && !e.RunEnd?
    ensures NoDebt(Step(q, e)) && !e.SendOper?
  {
    hide Step;
    if q.InCycle? {
      CycleKeepsRun(q, e);
    } else {
      NoDebtOutside(q, e);
    }
  }

  lemma NoDebtOutside(q: State, e: Event)
    requires NoDebt(q) && !q.InCycle? && Step(q, e) != Broken && !e.RunEnd?
    ensures NoDebt(Step(q, e)) && !e.SendOper?
  {
    hide StepInCycle;
  }

  lemma {:induction false} StaysBeforeOp(t: Trace, b: nat, n: nat)
    requires Accepted(t) && b < n <= |t| && t[b] == RunBegin
    requires forall k :: b < k < n ==> !t[k].RunEnd? && !t[k].SawOp?
    ensures BeforeOp(Run(t[..n]))
  {
    hide Step, Run;
    if n == b + 1 {
      RunStarts(t, b);
    } else {
      StaysBeforeOp(t, b, n - 1);
      AcceptedPrefix(t, n - 1);
      AcceptedPrefix(t, n);
      BeforeOpStep(Run(t[..n - 1]), t[n - 1]);
    }
  }

  lemma {:induction false} StaysNoDebt(t: Trace, p: nat, n: nat)
    requires Accepted(t) && p <= n <= |t| && NoDebt(Run(t[..p]))
    requires forall k :: p <= k < n ==> !t[k].RunEnd?
    ensures NoDebt(Run(t[..n]))
  {
    hide Step, Run;
    if p < n {
      StaysNoDebt(t, p, n - 1);
      AcceptedPrefix(t, n - 1);
      AcceptedPrefix(t, n);
      NoDebtStep(Run(t[..n - 1]), t[n - 1]);
    }
  }

  /** If the amplifier is first seen in STBY, the run never toggles OPERATE. */
  lemma StbyIsLeftAlone(t: Trace, b: nat, e: nat, first: nat, k: nat)
    requires OneRun(t, b, e) && b < first < e && t[first] == SawOp(Stby)
    requires forall i :: b < i < first ==> !t[i].SawOp?
    requires b < k < e
    ensures t[k] != SendOper
  {
    hide Step, Run;
    var p := if k < first then k else first;
    StaysBeforeOp(t, b, p);
    AcceptedPrefix(t, p);
    AcceptedPrefix(t, p + 1);
    BeforeOpStep(Run(t[..p]), t[p]);
    if k > first {
      StaysNoDebt(t, first + 1, k);
      AcceptedPrefix(t, k);
      AcceptedPrefix(t, k + 1);
      NoDebtStep(Run(t[..k]), t[k]);
    }
  }

  // ------------------------------------------------------------ handing OPERATE back

  predicate AfterToggle(q: State) {
    q.Toggled? || q.Dropped? || q.Quitting? || (q.Ready? && q.owe) || (q.InCycle? && q.owe)
    || q.Unwinding? || q.Owing? || q.Retoggled? || q.Back? || q.GaveUp? || q.Settled? || q.Released?
  }

  lemma AfterToggleStep(q: State, e: Event)
    requires Step(q, e) != Broken && !e.RunEnd?
    ensures AfterToggle(q) || e == SendOper ==> AfterToggle(Step(q, e))
    ensures AfterToggle(q) && e == Say(STBY_SET) ==> q.Dropped? && Step(q, e) == Ready(q.saved, true)
  {
    hide Step;
    if q.InCycle? {
      CycleKeepsRun(q, e);
    } else if Entering(q) {
      AfterToggleEntering(q, e);
    } else {
      AfterToggleLeaving(q, e);
    }
  }

  /** A cycle neither toggles OPERATE nor says STBY_SET, and leaves what the run owes alone. */
  lemma CycleKeepsRun(q: State, e: Event)
    requires q.InCycle? && Step(q, e) != Broken
    ensures e != SendOper && e != Say(STBY_SET)
    ensures !e.RestoreVfo? && !e.Disconnect? && !e.RunEnd? && !e.Snapshot?
    ensures Step(q, e).InCycle? || Step(q, e).Ready?
    ensures Step(q, e).saved == q.saved && Step(q, e).owe == q.owe
  {
    hide StepOutside;
  }

  lemma AfterToggleEntering(q: State, e: Event)
    requires Entering(q) && Step(q, e) != Broken && !e.RunEnd?
    ensures AfterToggle(q) || e == SendOper ==> AfterToggle(Step(q, e))
    ensures AfterToggle(q) && e == Say(STBY_SET) ==> q.Dropped? && Step(q, e) == Ready(q.saved, true)
  {
    hide StepInCycle, StepLeaving;
    if Arriving(q) {
      hide StepArming;
    } else {
      hide StepArriving;
    }
  }

  lemma AfterToggleLeaving(q: State, e: Event)
    requires !Entering(q) && !q.InCycle? && Step(q, e) != Broken && !e.RunEnd?
    ensures AfterToggle(q) || e == SendOper ==> AfterToggle(Step(q, e))
    ensures e != Say(STBY_SET)
  {
    hide StepInCycle, StepEntering;
  }

  lemma {:induction false} StaysAfterToggle(t: Trace, k: nat, n: nat)
    requires Accepted(t) && k < n <= |t| && t[k] == SendOper
    requires forall i :: k <= i < n ==> !t[i].RunEnd?
    ensures AfterToggle(Run(t[..n]))
  {
    hide Step, Run;
    AcceptedPrefix(t, n - 1);
    AcceptedPrefix(t, n);
    if k < n - 1 {
      StaysAfterToggle(t, k, n - 1);
    }
    AfterToggleStep(Run(t[..n - 1]), t[n - 1]);
  }

  /** The VFO snapshot, once known, is remembered for as long as the run keeps one. */
  predicate Remembers(q: State) {
    match q
    case Snapped(saved) => saved.Some?
    case Armed(saved) => saved.Some?
    case Calm(saved) => saved.Some?
    case Toggled(saved) => saved.Some?
    case Dropped(saved) => saved.Some?
    case Quitting(saved) => saved.Some?
    case Ready(saved, _) => saved.Some?
    case InCycle(saved, _, _) => saved.Some?
    case _ => !q.Begun? && !q.Acquired? && !q.Looking? && !q.Sought? && !q.Banded?
  }

  lemma RemembersStep(q: State, e: Event)
    requires Step(q, e) != Broken && !e.RunBegin?
    ensures Remembers(q) || (e.Snapshot? && e.snap.Some?) ==> Remembers(Step(q, e))
  {
    hide Step;
    if q.InCycle? {
      CycleKeepsRun(q, e);
    } else if Entering(q) {
      RemembersEntering(q, e);
    } else {
      RemembersLeaving(q, e);
    }
  }

  lemma RemembersEntering(q: State, e: Event)
    requires Entering(q) && Step(q, e) != Broken && !e.RunBegin?
    ensures Remembers(q) || (e.Snapshot? && e.snap.Some?) ==> Remembers(Step(q, e))
  {
    hide StepInCycle, StepLeaving;
    if Arriving(q) {
      hide StepArming;
    } else {
      hide StepArriving;
    }
  }

  lemma RemembersLeaving(q: State, e: Event)
    requires !Entering(q) && !q.InCycle? && Step(q, e) != Broken && !e.RunBegin?
    ensures Remembers(q) || (e.Snapshot? && e.snap.Some?) ==> Remembers(Step(q, e))
  {
    hide StepInCycle, StepEntering;
  }

  lemma {:induction false} StaysRemembered(t: Trace, k: nat, n: nat)
    requires Accepted(t) && k < n <= |t| && t[k].Snapshot? && t[k].snap.Some?
    requires forall i :: k <= i < n ==> !t[i].RunBegin?
    ensures Remembers(Run(t[..n]))
  {
    hide Step, Run;
    AcceptedPrefix(t, n - 1);
    AcceptedPrefix(t, n);
    if k < n - 1 {
      StaysRemembered(t, k, n - 1);
    }
    RemembersStep(Run(t[..n - 1]), t[n - 1]);
  }

  /** Between STBY_SET and the first step of the way out. */
  predicate Tuning(q: State, saved: Option<Vfo>) {
    q == Ready(saved, true) || (q.InCycle? && q.saved == saved && q.owe)
  }

  predicate AfterVfo(q: State) {
    q == Unwinding(true) || q.Owing? || q.Retoggled? || q.Back? || q.GaveUp?
  }

  lemma TuningStep(q: State, saved: Option<Vfo>, e: Event)
    requires Tuning(q, saved) && Step(q, e) != Broken
    ensures e != SendOper && !e.Disconnect? && !e.RunEnd?
    ensures Tuning(Step(q, e), saved) ==> !e.RestoreVfo?
    ensures !Tuning(Step(q, e), saved) ==> AfterVfo(Step(q, e)) && (saved.Some? ==> e.RestoreVfo?)
  {
    if q.InCycle? {
      hide StepOutside;
    } else {
      hide StepInCycle;
    }
  }

  lemma {:induction false} LeavesTuning(t: Trace, p: nat, e: nat, saved: Option<Vfo>) returns (r: nat)
    requires Accepted(t) && p <= e < |t| && t[e] == RunEnd && Tuning(Run(t[..p]), saved)
    ensures p <= r < e && AfterVfo(Run(t[..r + 1])) && (saved.Some? ==> t[r].RestoreVfo?)
    ensures forall k :: p <= k <= r ==> t[k] != SendOper && !t[k].Disconnect?
    ensures forall k :: p <= k < r ==> !t[k].RestoreVfo?
    decreases e - p
  {
    hide Step, Run;
    AcceptedPrefix(t, p);
    AcceptedPrefix(t, p + 1);
    TuningStep(Run(t[..p]), saved, t[p]);
    if Tuning(Run(t[..p + 1]), saved) {
      r := LeavesTuning(t, p + 1, e, saved);
    } else {
      r := p;
    }
  }

  /** Nothing but the toggle and reads of the amplifier. */
  predicate OnlyAmp(e: Event) {
    e == SendOper || e.SawOp? || e.TimedOut? || e.Say? || e.Refused?
  }

  lemma AfterVfoStep(q: State, e: Event)
    requires AfterVfo(q) && Step(q, e) != Broken
    ensures OnlyAmp(e)
    ensures AfterVfo(Step(q, e)) || (Step(q, e).Settled? && (e == Say(OPER_RESTORED) || e == Say(FAIL)))
    ensures e == SendOper ==> q.Owing? && Step(q, e).Retoggled?
    ensures q.Retoggled? || q.Back? || q.GaveUp? ==> !Step(q, e).Owing? && !Step(q, e).Unwinding?
  {
  }

  predicate NoToggle(t: Trace, p: int, o: int) {
    forall k :: p <= k < o && 0 <= k < |t| ==> t[k] != SendOper
  }

  predicate OneToggle(t: Trace, p: int, o: int) {
    NoToggle(t, p, o) ||
    exists x :: p <= x < o && 0 <= x < |t| && t[x] == SendOper && NoToggle(t, p, x) && NoToggle(t, x + 1, o)
  }

  lemma OneToggleEarlier(t: Trace, p: nat, o: nat)
    requires p < o <= |t|
    requires if t[p] == SendOper then NoToggle(t, p + 1, o) else OneToggle(t, p + 1, o)
    ensures OneToggle(t, p, o)
  {
    if t[p] == SendOper {
      assert NoToggle(t, p, p);
    } else if !NoToggle(t, p + 1, o) {
      var x :| p + 1 <= x < o && t[x] == SendOper && NoToggle(t, p + 1, x) && NoToggle(t, x + 1, o);
      assert NoToggle(t, p, x);
    }
  }

  predicate PastToggle(q: State) {
    q.Retoggled? || q.Back? || q.GaveUp?
  }

  lemma {:induction false} HandsBack(t: Trace, p: nat, e: nat) returns (o: nat)
    requires Accepted(t) && p <= e < |t| && t[e] == RunEnd && AfterVfo(Run(t[..p]))
    ensures p <= o < e && (t[o] == Say(OPER_RESTORED) || t[o] == Say(FAIL)) && Run(t[..o + 1]).Settled?
    ensures forall k :: p <= k < o ==> OnlyAmp(t[k])
    ensures OneToggle(t, p, o) && (PastToggle(Run(t[..p])) ==> NoToggle(t, p, o))
    decreases e - p
  {
    hide Step, Run, OneToggle;
    AcceptedPrefix(t, p);
    AcceptedPrefix(t, p + 1);
    AfterVfoStep(Run(t[..p]), t[p]);
    if Run(t[..p + 1]).Settled? {
      o := p;
      assert NoToggle(t, p, p);
      NoToggleIsOne(t, p, p);
    } else {
      o := HandsBack(t, p + 1, e);
      OneToggleEarlier(t, p, o);
    }
  }

  lemma NoToggleIsOne(t: Trace, p: int, o: int)
    requires NoToggle(t, p, o)
    ensures OneToggle(t, p, o)
  {
  }

  lemma {:induction false} Finishes(t: Trace, p: nat, e: nat) returns (d: nat)
    requires Accepted(t) && p <= e < |t| && t[e] == RunEnd && Run(t[..p]).Settled?
    ensures p <= d < e && t[d] == Disconnect
    ensures forall k :: p <= k < d ==> t[k].Refused?
    decreases e - p
  {
    hide Run;
    AcceptedPrefix(t, p);
    AcceptedPrefix(t, p + 1);
    if t[p] == Disconnect {
      d := p;
    } else {
      d := Finishes(t, p + 1, e);
    }
  }

  /** Once the amplifier has been taken out of OPERATE and STBY_SET said, every way out of the
      run goes: VFO restore if there is a snapshot, then reads of the amplifier and at most one
      more toggle, ending in OPER_RESTORED or FAIL, then the disconnect. */
  lemma OperateIsHandedBack(t: Trace, b: nat, e: nat, k: nat, i: nat) returns (r: nat, o: nat, d: nat)
    requires OneRun(t, b, e) && b < k < i < e && t[k] == SendOper && t[i] == Say(STBY_SET)
    ensures i < r <= o < d < e
    ensures (exists s :: b < s < i && t[s].Snapshot? && t[s].snap.Some?) ==> t[r].RestoreVfo?
    ensures forall n :: i < n <= r ==> t[n] != SendOper
    ensures forall n :: i < n < r ==> !t[n].RestoreVfo?
    ensures forall n :: r < n < o ==> OnlyAmp(t[n])
    ensures OneToggle(t, r + 1, o)
    ensures r < o && (t[o] == Say(OPER_RESTORED) || t[o] == Say(FAIL))
    ensures t[d] == Disconnect && forall n :: o < n < d ==> t[n].Refused?
  {
    hide Step, Run;
    AcceptedPrefix(t, i);
    AcceptedPrefix(t, i + 1);
    StaysAfterToggle(t, k, i);
    AfterToggleStep(Run(t[..i]), t[i]);
    var saved := Run(t[..i]).saved;
    assert Run(t[..i + 1]) == Ready(saved, true);
    if s :| b < s < i && t[s].Snapshot? && t[s].snap.Some? {
      StaysRemembered(t, s, i + 1);
    }
    r := LeavesTuning(t, i + 1, e, saved);
    o := HandsBack(t, r + 1, e);
    d := Finishes(t, o + 1, e);
  }

  // ------------------------------------------------------------ putting the VFO back

  /** The operator's VFO is known to be `v` and has not been put back. */
  predicate Held(q: State, v: Vfo) {
    q == Unswitched(v) || q == ModeLost(v) || q == Snapped(Some(v)) || q == Armed(Some(v)) || q == Calm(Some(v))
    || q == Toggled(Some(v)) || q == Dropped(Some(v)) || q == Quitting(Some(v))
    || (q.Ready? && q.saved == Some(v)) || (q.InCycle? && q.saved == Some(v))
  }

  /** The run has not yet looked at the VFO. */
  predicate Early(q: State) {
    q.Begun? || q.Acquired? || q.Looking? || q.Sought? || q.Banded?
  }

  /** On the way out, with nothing left to do to the radio but let go of it. */
  predicate WayOut(q: State) {
    q.Unwinding? || AfterVfo(q) || q.Settled?
  }

  /** What moves the radio's dial or mode. */
  predicate Retunes(e: Event) {
    e.SetFreq? || e.SetMode? || e.RestoreVfo?
  }

  lemma EarlyStep(q: State, e: Event)
    requires Step(q, e) != Broken
    ensures e.Snapshot? ==> Early(q) && (e.snap.Some? ==> Held(Step(q, e), e.snap.value))
    ensures Early(Step(q, e)) ==> e.RunBegin? || (Early(q) && !Retunes(e) && !e.Disconnect?)
  {
    hide Step;
    if q.InCycle? {
      CycleKeepsRun(q, e);
    } else if Entering(q) {
      EarlyStepEntering(q, e);
    } else {
      EarlyStepLeaving(q, e);
    }
  }

  lemma EarlyStepEntering(q: State, e: Event)
    requires Entering(q) && Step(q, e) != Broken
    ensures e.Snapshot? ==> Early(q) && (e.snap.Some? ==> Held(Step(q, e), e.snap.value))
    ensures Early(Step(q, e)) ==> e.RunBegin? || (Early(q) && !Retunes(e) && !e.Disconnect?)
  {
    hide StepInCycle, StepLeaving;
    if Arriving(q) {
      hide StepArming;
    } else {
      hide StepArriving;
    }
  }

  lemma EarlyStepLeaving(q: State, e: Event)
    requires !Entering(q) && !q.InCycle? && Step(q, e) != Broken
    ensures e.Snapshot? ==> Early(q) && (e.snap.Some? ==> Held(Step(q, e), e.snap.value))
    ensures Early(Step(q, e)) ==> e.RunBegin? || (Early(q) && !Retunes(e) && !e.Disconnect?)
  {
    hide StepInCycle, StepEntering;
  }

  lemma HeldStep(q: State, v: Vfo, e: Event)
    requires Held(q, v) && Step(q, e) != Broken
    ensures !e.Disconnect? && !e.RunEnd? && !e.Snapshot?
    ensures e.RestoreVfo? ==> e.vfo == v && WayOut(Step(q, e))
    ensures !e.RestoreVfo? ==> Held(Step(q, e), v)
  {
    hide Step;
    if q.InCycle? {
      CycleKeepsRun(q, e);
    } else if Entering(q) {
      HeldEntering(q, v, e);
    } else {
      HeldLeaving(q, v, e);
    }
  }

  lemma HeldEntering(q: State, v: Vfo, e: Event)
    requires Held(q, v) && Entering(q) && Step(q, e) != Broken
    ensures !e.Disconnect? && !e.RunEnd? && !e.Snapshot?
    ensures e.RestoreVfo? ==> e.vfo == v && WayOut(Step(q, e))
    ensures !e.RestoreVfo? ==> Held(Step(q, e), v)
  {
    hide StepInCycle, StepLeaving;
    if Arriving(q) {
      hide StepArming;
    } else {
      hide StepArriving;
    }
  }

  lemma HeldLeaving(q: State, v: Vfo, e: Event)
    requires Held(q, v) && !Entering(q) && !q.InCycle? && Step(q, e) != Broken
    ensures !e.Disconnect? && !e.RunEnd? && !e.Snapshot?
    ensures e.RestoreVfo? ==> e.vfo == v && WayOut(Step(q, e))
    ensures !e.RestoreVfo? ==> Held(Step(q, e), v)
  {
    hide StepInCycle, StepEntering;
  }

  lemma WayOutStep(q: State, e: Event)
    requires WayOut(q) && Step(q, e) != Broken
    ensures !Retunes(e) && !e.Carrier? && !e.RunEnd? && !e.Snapshot?
    ensures e.Disconnect? ==> Step(q, e).Released?
    ensures !e.Disconnect? ==> WayOut(Step(q, e))
  {
    hide Step;
    if AfterVfo(q) {
      AfterVfoStep(q, e);
    } else {
      LastStep(q, e);
    }
  }

  lemma LastStep(q: State, e: Event)
    requires (q == Unwinding(false) || q.Settled?) && Step(q, e) != Broken
    ensures !Retunes(e) && !e.Carrier? && !e.RunEnd? && !e.Snapshot?
    ensures if e.Disconnect? then Step(q, e).Released? else Step(q, e) == q
  {
    hide StepInCycle;
  }

  lemma {:induction false} WasEarly(t: Trace, b: nat, n: nat)
    requires Accepted(t) && b < n <= |t| && Early(Run(t[..n]))
    requires forall k :: b < k < n ==> !t[k].RunBegin?
    ensures forall k :: b < k < n ==> !Retunes(t[k]) && !t[k].Disconnect?
  {
    if b < n - 1 {
      hide Step, Run;
      AcceptedPrefix(t, n - 1);
      AcceptedPrefix(t, n);
      EarlyStep(Run(t[..n - 1]), t[n - 1]);
      WasEarly(t, b, n - 1);
    }
  }

  lemma {:induction false} PutsBack(t: Trace, v: Vfo, p: nat, e: nat) returns (r: nat)
    requires Accepted(t) && p <= e < |t| && t[e] == RunEnd && Held(Run(t[..p]), v)
    ensures p <= r < e && t[r].RestoreVfo? && t[r].vfo == v && WayOut(Run(t[..r + 1]))
    ensures forall k :: p <= k < r ==> !t[k].RestoreVfo? && !t[k].Disconnect? && !t[k].Snapshot?
    decreases e - p
  {
    hide Step, Run;
    AcceptedPrefix(t, p);
    AcceptedPrefix(t, p + 1);
    HeldStep(Run(t[..p]), v, t[p]);
    if t[p].RestoreVfo? {
      r := p;
    } else {
      r := PutsBack(t, v, p + 1, e);
    }
  }

  lemma {:induction false} LetsGo(t: Trace, p: nat, e: nat) returns (d: nat)
    requires Accepted(t) && p <= e < |t| && t[e] == RunEnd && WayOut(Run(t[..p]))
    ensures p <= d < e && t[d] == Disconnect && Run(t[..d + 1]).Released?
    ensures forall k :: p <= k < d ==> !Retunes(t[k]) && !t[k].Carrier? && !t[k].Disconnect? && !t[k].Snapshot?
    decreases e - p
  {
    hide Step, Run;
    AcceptedPrefix(t, p);
    AcceptedPrefix(t, p + 1);
    WayOutStep(Run(t[..p]), t[p]);
    if t[p].Disconnect? {
      d := p;
    } else {
      d := LetsGo(t, p + 1, e);
    }
  }

  lemma ReleasedStep(q: State, e: Event)
    requires q.Released? && Step(q, e) != Broken && !e.RunEnd?
    ensures e.Refused? && Step(q, e).Released?
  {
  }

  lemma {:induction false} OnlyRefusals(t: Trace, p: nat, e: nat)
    requires Accepted(t) && p <= e < |t| && Run(t[..p]).Released?
    requires forall k :: p <= k < e ==> !t[k].RunEnd?
    ensures forall k :: p <= k < e ==> t[k].Refused?
    ensures Run(t[..e]).Released?
    decreases e
  {
    hide Step, Run;
    if p < e {
      OnlyRefusals(t, p, e - 1);
      AcceptedPrefix(t, e - 1);
      AcceptedPrefix(t, e);
      ReleasedStep(Run(t[..e - 1]), t[e - 1]);
    }
  }

  /** Every run that came to know the operator's VFO puts just that back, exactly once, whatever failed
      or was stopped in between: after every other move of the radio's dial or mode and every
      carrier, and before the one disconnect. */
  lemma VfoIsPutBack(t: Trace, b: nat, e: nat, s: nat) returns (r: nat, d: nat)
    requires OneRun(t, b, e) && b < s < e && t[s].Snapshot? && t[s].snap.Some?
    ensures s < r < d < e && t[r].RestoreVfo? && t[r].vfo == t[s].snap.value && t[d] == Disconnect
    ensures forall k :: b < k < e && k != r ==> !t[k].RestoreVfo?
    ensures forall k :: r < k < e ==> !Retunes(t[k]) && !t[k].Carrier?
    ensures forall k :: b < k < e && k != d ==> !t[k].Disconnect?
  {
    hide Step, Run;
    AcceptedPrefix(t, s);
    AcceptedPrefix(t, s + 1);
    EarlyStep(Run(t[..s]), t[s]);
    WasEarly(t, b, s);
    r := PutsBack(t, t[s].snap.value, s + 1, e);
    d := LetsGo(t, r + 1, e);
    OnlyRefusals(t, d + 1, e);
  }

  // ------------------------------------------------------------ the tune's mode

  /** A mode of the CW family, in either case. */
  predicate IsCw(mode: string) {
    |mode| >= 2 && (mode[0] == 'C' || mode[0] == 'c') && (mode[1] == 'W' || mode[1] == 'w')
  }

  lemma CwNeedsNothing(mode: string)
    ensures NeedsCw(Some(mode)) <==> !IsCw(mode)
  {
    var u := Upper(mode);
    if |mode| >= 2 {
      assert u[0] == UpperChar(mode[0]) && u[1] == UpperChar(mode[1]);
      assert u == [u[0], u[1]] + u[2..];
    }
  }

  /** The snapshot has been taken and the mode still stands as it was. */
  predicate Waiting(q: State) {
    q.Unswitched?
  }

  /** The snapshot has been taken and the radio is in the mode of the tune, or in one nobody
      knows. */
  predicate InMode(q: State) {
    q.Snapped? || q.Armed? || q.Calm? || q.Toggled? || q.Dropped? || q.Ready? || q.InCycle?
  }

  lemma ModeStepEntering(q: State, e: Event)
    requires Entering(q) && Step(q, e) != Broken
    ensures e.SetMode? ==> Waiting(q) && e.mode == "CW" && (e.ok <==> InMode(Step(q, e)))
    ensures Waiting(Step(q, e)) ==> (Waiting(q) && !e.SetMode? && Step(q, e) == q) ||
                                    (e.Snapshot? && e.snap == Some(Step(q, e).vfo) && NeedsCw(e.snap.value.mode))
    ensures InMode(Step(q, e)) ==> InMode(q) || e == SetMode("CW", true) ||
                                   (e.Snapshot? && (e.snap.Some? ==> !NeedsCw(e.snap.value.mode)))
    ensures Waiting(Step(q, e)) || InMode(Step(q, e)) ==> !e.RunBegin?
    ensures e.Snapshot? ==> Early(q)
  {
    hide StepInCycle, StepLeaving, NeedsCw;
  }

  lemma ModeStepLeaving(q: State, e: Event)
    requires !Entering(q) && !q.InCycle? && Step(q, e) != Broken
    ensures !e.SetMode? && !Waiting(Step(q, e)) && !e.Snapshot?
    ensures InMode(Step(q, e)) ==> InMode(q) && !e.RunBegin?
  {
    hide StepInCycle, StepEntering;
  }

  lemma ModeStepInCycle(q: State, e: Event)
    requires q.InCycle? && Step(q, e) != Broken
    ensures !e.SetMode? && !Waiting(Step(q, e)) && !e.Snapshot? && InMode(Step(q, e)) && !e.RunBegin?
  {
    hide StepOutside;
  }

  /** Position `s` holds the snapshot of the run that the trace is in; the mode was, since then,
      set to CW once if that was due, and otherwise left alone. */
  predicate ModeKept(t: Trace, s: nat, done: bool) {
    && s < |t| && t[s].Snapshot?
    && (forall k :: s < k < |t| ==> !t[k].Snapshot? && !t[k].RunBegin?)
    && if t[s].snap.Some? && NeedsCw(t[s].snap.value.mode) && done
       then exists m :: s < m < |t| && t[m] == SetMode("CW", true) && OnlyMode(t, s, m)
       else OnlyMode(t, s, s)
  }

  /** After `s`, no mode is asked for but at `m`. */
  predicate OnlyMode(t: Trace, s: nat, m: nat) {
    forall k :: s < k < |t| && k != m ==> !t[k].SetMode?
  }

  lemma ModeKeptLater(t: Trace, e: Event, s: nat, done: bool)
    requires ModeKept(t, s, done) && !e.Snapshot? && !e.RunBegin? && !e.SetMode?
    ensures ModeKept(t + [e], s, done)
  {
    var u := t + [e];
    if t[s].snap.Some? && NeedsCw(t[s].snap.value.mode) && done {
      var m :| s < m < |t| && t[m] == SetMode("CW", true) && OnlyMode(t, s, m);
      assert u[m] == t[m] && OnlyMode(u, s, m);
    } else {
      assert OnlyMode(u, s, s);
    }
  }

  lemma ModeSwitched(t: Trace, s: nat)
    requires ModeKept(t, s, false) && t[s].snap.Some? && NeedsCw(t[s].snap.value.mode)
    ensures ModeKept(t + [SetMode("CW", true)], s, true)
  {
    hide NeedsCw;
    var u := t + [SetMode("CW", true)];
    assert u[|t|] == SetMode("CW", true) && u[s] == t[s];
    assert OnlyMode(u, s, |t|);
  }

  lemma ModeFresh(t: Trace, e: Event, done: bool)
    requires e.Snapshot? && (done ==> e.snap.None? || !NeedsCw(e.snap.value.mode))
    ensures ModeKept(t + [e], |t|, done)
  {
    hide NeedsCw;
    assert (t + [e])[|t|] == e;
    assert OnlyMode(t + [e], |t|, |t|);
  }

  lemma {:induction false} ModeHistory(t: Trace) returns (s: nat)
    requires Accepted(t) && (Waiting(Run(t)) || InMode(Run(t)))
    ensures ModeKept(t, s, InMode(Run(t)))
    ensures Waiting(Run(t)) ==> t[s].snap == Some(Run(t).vfo) && NeedsCw(t[s].snap.value.mode)
  {
    StartsIdle();
    hide Step, Run, ModeKept, NeedsCw;
    assert t != [];
    var n := |t| - 1;
    var front, e := t[..n], t[n];
    AcceptedPrefix(t, n);
    AcceptedPrefix(t, n + 1);
    assert t[..n + 1] == t && front + [e] == t;
    var q := Run(front);
    if q.InCycle? {
      ModeStepInCycle(q, e);
    } else if Entering(q) {
      ModeStepEntering(q, e);
    } else {
      ModeStepLeaving(q, e);
    }
    if e.Snapshot? {
      s := n;
      SnapshotLeads(q, e);
      ModeFresh(front, e, InMode(Run(t)));
    } else {
      s := ModeHistory(front);
      ModeIndex(front, s, InMode(q));
      if e.SetMode? {
        ModeSwitched(front, s);
      } else {
        ModeKeptLater(front, e, s, InMode(q));
      }
    }
  }

  lemma StartsIdle()
    ensures Run([]) == Idle
  {
  }

  lemma SnapshotLeads(q: State, e: Event)
    requires e.Snapshot? && Step(q, e) != Broken && !q.InCycle?
    ensures Step(q, e) == AfterSnapshot(e.snap)
  {
    hide StepInCycle, AfterSnapshot;
  }

  lemma ModeIndex(t: Trace, s: nat, done: bool)
    requires ModeKept(t, s, done)
    ensures s < |t| && t[s].Snapshot?
  {
  }

  lemma CarrierInMode(q: State, e: Event)
    requires Step(q, e) != Broken && e.Carrier? && e.on
    ensures InMode(q)
  {
    OnlyFromLit(q, e);
  }

  /** Whenever the carrier is asked for, the run's snapshot `s` was taken before. If it knew a
      mode outside the CW family, the radio has since been set to CW, successfully and once; if
      it knew no mode or one of that family, the mode has not been touched. */
  lemma CarrierIsInCw(t: Trace, i: nat) returns (s: nat)
    requires Accepted(t) && i < |t| && t[i].Carrier? && t[i].on
    ensures s < i && t[s].Snapshot? && forall k :: s < k < i ==> !t[k].RunBegin? && !t[k].Snapshot?
    ensures var due := t[s].snap.Some? && t[s].snap.value.mode.Some? && !IsCw(t[s].snap.value.mode.value);
            && (due ==> exists m :: s < m < i && t[m] == SetMode("CW", true) &&
                                    forall k :: s < k < i && k != m ==> !t[k].SetMode?)
            && (!due ==> forall k :: s < k < i ==> !t[k].SetMode?)
  {
    hide Step, Run, NeedsCw, IsCw;
    AcceptedPrefix(t, i);
    AcceptedPrefix(t, i + 1);
    CarrierInMode(Run(t[..i]), t[i]);
    s := ModeHistory(t[..i]);
    var front := t[..i];
    if t[s].snap.Some? && t[s].snap.value.mode.Some? {
      CwNeedsNothing(t[s].snap.value.mode.value);
    } else if t[s].snap.Some? {
      UnknownNeedsNothing();
    }
    if t[s].snap.Some? && NeedsCw(t[s].snap.value.mode) {
      var m :| s < m < |front| && front[m] == SetMode("CW", true) && OnlyMode(front, s, m);
      assert t[m] == SetMode("CW", true);
      assert forall k :: s < k < i && k != m ==> front[k] == t[k];
    } else {
      assert OnlyMode(front, s, s);
      assert forall k :: s < k < i ==> front[k] == t[k];
    }
  }

  lemma UnknownNeedsNothing()
    ensures !NeedsCw(None)
  {
  }

  /** A mode is asked for only to leave one that is known and outside the CW family, it is CW
      that is asked for, and only once for a snapshot. */
  lemma ModeIsSetOnlyWhenDue(t: Trace, m: nat) returns (s: nat)
    requires Accepted(t) && m < |t| && t[m].SetMode?
    ensures t[m].mode == "CW"
    ensures s < m && t[s].Snapshot? && t[s].snap.Some? && t[s].snap.value.mode.Some?
    ensures !IsCw(t[s].snap.value.mode.value)
    ensures forall k :: s < k < m ==> !t[k].RunBegin? && !t[k].Snapshot? && !t[k].SetMode?
  {
    hide Step, Run, NeedsCw, IsCw;
    AcceptedPrefix(t, m);
    AcceptedPrefix(t, m + 1);
    var q := Run(t[..m]);
    if q.InCycle? {
      ModeStepInCycle(q, t[m]);
    } else if Entering(q) {
      ModeStepEntering(q, t[m]);
    } else {
      ModeStepLeaving(q, t[m]);
    }
    s := ModeHistory(t[..m]);
    KnownIsNeeded(t[s].snap.value.mode);
    CwNeedsNothing(t[s].snap.value.mode.value);
    assert OnlyMode(t[..m], s, s);
    assert forall k :: s < k < m ==> t[..m][k] == t[k];
  }

  lemma KnownIsNeeded(mode: Option<string>)
    requires NeedsCw(mode)
    ensures mode.Some?
  {
  }

  // ------------------------------------------------------------ a responsive amplifier

  function Other(op: OpStatus): OpStatus {
    if op.Oper? then Stby else Oper
  }

  /** The true state of an amplifier that changes only when toggled. */
  function TrueOp(init: OpStatus, t: Trace): OpStatus {
    if t == [] then init
    else
      var before := TrueOp(init, t[..|t| - 1]);
      if t[|t| - 1] == SendOper then Other(before) else before
  }

  /** The trace ends inside the wait that follows a toggle. */
  predicate InOperWait(t: Trace) {
    t != [] &&
    var last := t[|t| - 1];
    last == SendOper || ((last.SawOp? || last.Refused?) && InOperWait(t[..|t| - 1]))
  }

  /** The amplifier answers every toggle before the wait for it gives up, and otherwise reads
      show its true state. */
  predicate Responsive(init: OpStatus, t: Trace) {
    forall i :: 0 <= i < |t| ==> Honest(init, t[..i], t[i])
  }

  predicate Honest(init: OpStatus, before: Trace, e: Event) {
    && (e.SawOp? ==> e.op == TrueOp(init, before) || InOperWait(before))
    && (e.TimedOut? ==> !InOperWait(before))
  }

  /** A stop request was met inside the wait for a toggle. */
  predicate StopInWait(t: Trace) {
    exists i :: 0 <= i < |t| && t[i] == SawStop && InOperWait(t[..i])
  }

  lemma StopInWaitGrows(t: Trace)
    requires t != []
    ensures var front := t[..|t| - 1];
            StopInWait(t) <==> StopInWait(front) || (t[|t| - 1] == SawStop && InOperWait(front))
  {
    var front := t[..|t| - 1];
    if StopInWait(t) {
      var i :| 0 <= i < |t| && t[i] == SawStop && InOperWait(t[..i]);
      assert i < |front| ==> front[..i] == t[..i];
    }
    if StopInWait(front) {
      var i :| 0 <= i < |front| && front[i] == SawStop && InOperWait(front[..i]);
      assert t[..i] == front[..i];
    }
  }

  /** What each state says about the amplifier, the wait and a stop inside it. */
  predicate AmpAgrees(q: State, init: OpStatus, now: OpStatus, waiting: bool, stopped: bool) {
    match q
    case Idle => true
    case Begun => now == init && !stopped && !waiting
    case Acquired => now == init && !stopped && !waiting
    case Looking => now == init && !stopped && !waiting
    case Sought => now == init && !stopped && !waiting
    case Banded => now == init && !stopped && !waiting
    case Unswitched(_) => now == init && !stopped && !waiting
    case ModeLost(_) => now == init && !stopped && !waiting
    case Snapped(_) => now == init && !stopped && !waiting
    case Armed(_) => now == init == Oper && !stopped && !waiting
    case Calm(_) => now == init == Stby && !stopped && !waiting
    case Toggled(_) => init == Oper && now == Stby && !stopped && waiting
    case Dropped(_) => init == Oper && now == Stby && !stopped
    case Quitting(_) => init == Oper && now == Stby && stopped && !waiting
    case Ready(_, owe) =>
      !stopped && !waiting && (if owe then init == Oper && now == Stby else now == init == Stby)
    case InCycle(_, owe, _) =>
      !stopped && !waiting && (if owe then init == Oper && now == Stby else now == init == Stby)
    case Unwinding(owe) =>
      !waiting && if owe then init == Oper && now == Stby && !stopped else (now == init <==> !stopped)
    case Owing => init == Oper && now == Stby && !stopped
    case Retoggled => init == Oper && now == Oper && !stopped && waiting
    case Back => init == Oper && now == Oper && !stopped
    case GaveUp => false
    case Settled => init == Oper && now == Oper && !stopped
    case Released => now == init <==> !stopped
    case Broken => true
  }

  predicate BeforeSnapshot(q: State) {
    q.Idle? || Early(q)
  }

  lemma AmpStepSearching(q: State, e: Event, init: OpStatus, now: OpStatus, waiting: bool, stopped: bool)
    requires BeforeSnapshot(q)
    requires AmpAgrees(q, init, now, waiting, stopped)
    requires Step(q, e) != Broken && !e.RunBegin? && !e.RunEnd?
    requires e.SawOp? ==> e.op == now || waiting
    requires e.TimedOut? ==> !waiting
    ensures AmpAgrees(Step(q, e), init, if e == SendOper then Other(now) else now,
                      e == SendOper || ((e.SawOp? || e.Refused?) && waiting),
                      stopped || (e == SawStop && waiting))
  {
    hide StepInCycle, StepLeaving;
    if Arriving(q) {
      hide StepArming;
    } else {
      hide StepArriving;
    }
  }

  lemma AmpStepEntering(q: State, e: Event, init: OpStatus, now: OpStatus, waiting: bool, stopped: bool)
    requires Entering(q) && !BeforeSnapshot(q)
    requires AmpAgrees(q, init, now, waiting, stopped)
    requires Step(q, e) != Broken && !e.RunBegin? && !e.RunEnd?
    requires e.SawOp? ==> e.op == now || waiting
    requires e.TimedOut? ==> !waiting
    ensures AmpAgrees(Step(q, e), init, if e == SendOper then Other(now) else now,
                      e == SendOper || ((e.SawOp? || e.Refused?) && waiting),
                      stopped || (e == SawStop && waiting))
  {
    hide StepInCycle, StepLeaving;
    if Arriving(q) {
      hide StepArming;
    } else {
      hide StepArriving;
    }
  }

  lemma AmpStepInCycle(q: State, e: Event, init: OpStatus, now: OpStatus, waiting: bool, stopped: bool)
    requires q.InCycle?
    requires AmpAgrees(q, init, now, waiting, stopped)
    requires Step(q, e) != Broken && !e.RunBegin? && !e.RunEnd?
    requires e.SawOp? ==> e.op == now || waiting
    requires e.TimedOut? ==> !waiting
    ensures AmpAgrees(Step(q, e), init, if e == SendOper then Other(now) else now,
                      e == SendOper || ((e.SawOp? || e.Refused?) && waiting),
                      stopped || (e == SawStop && waiting))
  {
    hide StepOutside, CycleStep;
    CycleNeverToggles(q.cycle);
  }

  lemma AmpStepLeaving(q: State, e: Event, init: OpStatus, now: OpStatus, waiting: bool, stopped: bool)
    requires !Entering(q) && !q.InCycle?
    requires AmpAgrees(q, init, now, waiting, stopped)
    requires Step(q, e) != Broken && !e.RunBegin? && !e.RunEnd?
    requires e.SawOp? ==> e.op == now || waiting
    requires e.TimedOut? ==> !waiting
    ensures AmpAgrees(Step(q, e), init, if e == SendOper then Other(now) else now,
                      e == SendOper || ((e.SawOp? || e.Refused?) && waiting),
                      stopped || (e == SawStop && waiting))
  {
    hide StepInCycle, StepEntering;
  }

  lemma AmpStep(q: State, e: Event, init: OpStatus, now: OpStatus, waiting: bool, stopped: bool)
    requires AmpAgrees(q, init, now, waiting, stopped)
    requires Step(q, e) != Broken && !e.RunBegin? && !e.RunEnd?
    requires e.SawOp? ==> e.op == now || waiting
    requires e.TimedOut? ==> !waiting
    ensures AmpAgrees(Step(q, e), init, if e == SendOper then Other(now) else now,
                      e == SendOper || ((e.SawOp? || e.Refused?) && waiting),
                      stopped || (e == SawStop && waiting))
  {
    hide Step, AmpAgrees;
    if q.InCycle? {
      AmpStepInCycle(q, e, init, now, waiting, stopped);
    } else if BeforeSnapshot(q) {
      AmpStepSearching(q, e, init, now, waiting, stopped);
    } else if Entering(q) {
      AmpStepEntering(q, e, init, now, waiting, stopped);
    } else {
      AmpStepLeaving(q, e, init, now, waiting, stopped);
    }
  }

  lemma CycleNeverToggles(c: Stage)
    ensures CycleStep(c, SendOper) == Off
  {
  }

  lemma AmpBegins(init: OpStatus, t: Trace)
    requires |t| == 1 && t[0] == RunBegin && Run(t) == Begun
    ensures AmpAgrees(Run(t), init, TrueOp(init, t), InOperWait(t), StopInWait(t))
  {
    assert t[..0] == [];
  }

  /** One more event of a run with a responsive amplifier. */
  lemma AmpNext(init: OpStatus, now: Trace)
    requires now != [] && Run(now) != Broken
    requires var front, e := now[..|now| - 1], now[|now| - 1];
             && !e.RunBegin? && !e.RunEnd? && Honest(init, front, e)
             && AmpAgrees(Run(front), init, TrueOp(init, front), InOperWait(front), StopInWait(front))
    ensures AmpAgrees(Run(now), init, TrueOp(init, now), InOperWait(now), StopInWait(now))
  {
    hide Step, AmpAgrees, StopInWait;
    var front, e := now[..|now| - 1], now[|now| - 1];
    StopInWaitGrows(now);
    AmpStep(Run(front), e, init, TrueOp(init, front), InOperWait(front), StopInWait(front));
  }

  lemma {:induction false} AmpHistory(init: OpStatus, t: Trace, n: nat)
    requires Accepted(t) && 0 < n <= |t| && t[0] == RunBegin
    requires forall k :: 0 < k < n ==> !t[k].RunBegin? && !t[k].RunEnd?
    requires Responsive(init, t)
    ensures AmpAgrees(Run(t[..n]), init, TrueOp(init, t[..n]), InOperWait(t[..n]), StopInWait(t[..n]))
    decreases n
  {
    hide Step, AmpAgrees, Run, TrueOp, InOperWait, StopInWait, Honest;
    var now := t[..n];
    assert now[..n - 1] == t[..n - 1] && now[n - 1] == t[n - 1];
    AcceptedPrefix(t, n);
    if n == 1 {
      RunStarts(t, 0);
      AmpBegins(init, now);
    } else {
      AmpHistory(init, t, n - 1);
      assert Honest(init, t[..n - 1], t[n - 1]);
      AmpNext(init, now);
    }
  }

  lemma FirstRunEndsAsItBegan(init: OpStatus, t: Trace)
    requires t != [] && OneRun(t, 0, |t| - 1) && Responsive(init, t)
    ensures TrueOp(init, t) == init <==> !StopInWait(t)
  {
    hide Step, Run, StopInWait;
    var n := |t| - 1;
    AmpHistory(init, t, n);
    AcceptedPrefix(t, n);
    AcceptedPrefix(t, n + 1);
    assert t[..n + 1] == t;
    StopInWaitGrows(t);
    EndsReleased(Run(t[..n]));
  }

  /** What follows an idle point is accepted as if it came first. */
  lemma {:induction false} RunFromIdle(t: Trace, b: nat, n: nat)
    requires b <= n <= |t| && Run(t[..b]) == Idle
    ensures Run(t[b..n]) == Run(t[..n])
  {
    hide Step;
    if b < n {
      RunFromIdle(t, b, n - 1);
      assert t[b..n][..n - b - 1] == t[b..n - 1] && t[..n][..n - 1] == t[..n - 1];
    }
  }

  /** The events of one run, whatever came before it. */
  function RunEvents(t: Trace, b: nat, e: nat): Trace
    requires OneRun(t, b, e)
  {
    t[b..e + 1]
  }

  lemma RunStandsAlone(t: Trace, b: nat, e: nat)
    requires OneRun(t, b, e)
    ensures OneRun(RunEvents(t, b, e), 0, e - b)
  {
    hide Step, Run;
    var u := t[b..e + 1];
    AcceptedPrefix(t, b);
    AcceptedPrefix(t, b + 1);
    AcceptedPrefix(t, e + 1);
    OnlyFromIdle(Run(t[..b]));
    RunFromIdle(t, b, e + 1);
    assert forall k :: 0 <= k < |u| ==> u[k] == t[b + k];
  }

  lemma OnlyFromIdle(q: State)
    requires Step(q, RunBegin) != Broken
    ensures q == Idle
  {
  }

  /** In any run of any history: with an amplifier that is `init` when the run begins, changes
      only by toggling and answers in time, the run leaves it as it was exactly when no stop
      request was met inside the wait for the switch to STBY. */
  lemma AmpEndsAsItBegan(init: OpStatus, t: Trace, b: nat, e: nat)
    requires OneRun(t, b, e) && Responsive(init, RunEvents(t, b, e))
    ensures TrueOp(init, RunEvents(t, b, e)) == init <==> !StopInWait(RunEvents(t, b, e))
  {
    RunStandsAlone(t, b, e);
    FirstRunEndsAsItBegan(init, RunEvents(t, b, e));
  }

  lemma EndsReleased(q: State)
    requires Step(q, RunEnd) != Broken
    ensures q.Released?
  {
  }

  lemma Extend(init: OpStatus, t: Trace, e: Event)
    requires Responsive(init, t) && Honest(init, t, e)
    ensures Responsive(init, t + [e])
    ensures Run(t + [e]) == Step(Run(t), e)
    ensures TrueOp(init, t + [e]) == if e == SendOper then Other(TrueOp(init, t)) else TrueOp(init, t)
    ensures InOperWait(t + [e]) <==> e == SendOper || ((e.SawOp? || e.Refused?) && InOperWait(t))
  {
    var u := t + [e];
    FrontOfSnoc(t, e);
    forall i | 0 <= i < |u|
      ensures Honest(init, u[..i], u[i])
    {
      if i < |t| {
        assert u[..i] == t[..i];
      }
    }
  }

  /** A run that has begun and not ended, with an amplifier found in OPERATE. */
  predicate Underway(t: Trace) {
    && Responsive(Oper, t) && t != [] && t[0] == RunBegin
    && forall k :: 0 < k < |t| ==> !t[k].RunBegin? && !t[k].RunEnd?
  }

  lemma Continues(t: Trace, e: Event) returns (u: Trace)
    requires Underway(t) && (e.SawOp? ==> e.op == TrueOp(Oper, t)) && !e.TimedOut?
    requires !e.RunBegin? && !e.RunEnd?
    ensures Run(u) == Step(Run(t), e) && Underway(u)
    ensures TrueOp(Oper, u) == if e == SendOper then Other(TrueOp(Oper, t)) else TrueOp(Oper, t)
  {
    Extend(Oper, t, e);
    u := t + [e];
  }

  lemma Begins() returns (t: Trace)
    ensures Underway(t) && Run(t) == Begun && TrueOp(Oper, t) == Oper
  {
    assert Responsive(Oper, []);
    Extend(Oper, [], RunBegin);
    t := [] + [RunBegin];
  }

  lemma Snapshots() returns (t: Trace)
    ensures Underway(t) && Run(t) == Snapped(None) && TrueOp(Oper, t) == Oper
  {
    hide Underway, TrueOp;
    t := Begins();
    t := Continues(t, Connect(true));
    t := Continues(t, Snapshot(None));
    t := Continues(t, Say(VFO_SAVED));
    t := Continues(t, Say(MODE_SET));
  }

  lemma StopsInWait() returns (t: Trace)
    ensures Underway(t) && Run(t) == Quitting(None) && TrueOp(Oper, t) == Stby
  {
    hide Underway, TrueOp;
    t := Snapshots();
    t := Continues(t, SawOp(Oper));
    t := Continues(t, SendOper);
    t := Continues(t, SawStop);
  }

  /** The stop inside the wait is real: found in OPERATE, toggled once, and left in STBY. */
  lemma StopInWaitLosesOperate() returns (t: Trace)
    ensures t != [] && OneRun(t, 0, |t| - 1) && Responsive(Oper, t) && TrueOp(Oper, t) == Stby
  {
    hide Underway, OneRun, TrueOp;
    t := StopsInWait();
    t := Continues(t, Say(ABORT));
    t := Continues(t, Disconnect);
    t := Ends(t);
  }

  lemma Ends(t: Trace) returns (u: Trace)
    requires Underway(t) && Run(t).Released?
    ensures u != [] && OneRun(u, 0, |u| - 1) && Responsive(Oper, u) && TrueOp(Oper, u) == TrueOp(Oper, t)
  {
    Extend(Oper, t, RunEnd);
    u := t + [RunEnd];
  }

  // ------------------------------------------------------------ how a cycle ends

  function CycleRun(es: seq<Event>): Stage {
    if es == [] then Fresh else CycleStep(CycleRun(es[..|es| - 1]), es[|es| - 1])
  }

  /** The phases said, in order. */
  function Phases(es: seq<Event>): seq<Phase> {
    if es == [] then []
    else
      var last := es[|es| - 1];
      Phases(es[..|es| - 1]) + if last.Say? then [last.phase] else []
  }

  predicate CarrierOffFailed(es: seq<Event>) {
    Carrier(false, false) in es
  }

  /** What the phases of a cycle have been when it has come to a stage. */
  predicate PhasesAgree(c: Stage, ps: seq<Phase>, cutFailed: bool) {
    && c != Off
    && (!c.Over? ==> SUCCESS !in ps)
    && (LED_OFF in ps <==> c.SweptSaid? || (c.Cut? && c.done) || (c.Closed? && c.done) || (c.Over? && c.done))
    && (c.Over? ==> ps != [] && ps[|ps| - 1] == (if c.done then SUCCESS else FAIL) &&
                    SUCCESS !in ps[..|ps| - 1])
    && (cutFailed ==> c.Cut? || c.Closed? || c.Over?)
    && (c.Cut? ==> (c.ok <==> !cutFailed))
    && ((c.Fresh? || c.Started? || c.SeenStby? || c.Dark? || c.Powered? || c.Sent? || c.Lit? || c.On?
         || c.Swept? || c.SweptSaid? || (c.Cut? && c.done)) ==> FAIL !in ps)
    && ((c.Closed? && c.done) || (c.Over? && c.done) ==> (FAIL in ps <==> cutFailed))
  }

  lemma PhasesStep(c: Stage, ps: seq<Phase>, cutFailed: bool, e: Event)
    requires PhasesAgree(c, ps, cutFailed) && CycleStep(c, e) != Off
    ensures PhasesAgree(CycleStep(c, e), if e.Say? then ps + [e.phase] else ps,
                        cutFailed || e == Carrier(false, false))
  {
    if e.Say? {
      FrontOfSnoc(ps, e.phase);
    }
  }

  lemma {:induction false} CyclePhases(es: seq<Event>)
    requires CycleRun(es) != Off
    ensures PhasesAgree(CycleRun(es), Phases(es), CarrierOffFailed(es))
  {
    if es != [] {
      var front, e := es[..|es| - 1], es[|es| - 1];
      assert front + [e] == es;
      assert CarrierOffFailed(es) <==> CarrierOffFailed(front) || e == Carrier(false, false);
      OffStays(CycleRun(front), e);
      CyclePhases(front);
      PhasesStep(CycleRun(front), Phases(front), CarrierOffFailed(front), e);
      SumNothing(Phases(front));
    }
  }

  lemma OffStays(c: Stage, e: Event)
    ensures c == Off ==> CycleStep(c, e) == Off
  {
  }

  lemma {:induction false} CycleWithin(t: Trace, i: nat, j: nat)
    requires Accepted(t) && i < j <= |t| && t[i] == CycleBegin && SameCycle(t, i, j)
    ensures Run(t[..j]).InCycle? && Run(t[..j]).cycle == CycleRun(t[i + 1..j]) != Off
  {
    AcceptedPrefix(t, j - 1);
    AcceptedPrefix(t, j);
    if j == i + 1 {
      CycleOpens(Run(t[..i]));
      assert t[i + 1..j] == [];
    } else {
      hide Step, CycleStep, Run, CycleRun, SameCycle;
      SameCycleShorter(t, i, j);
      CycleWithin(t, i, j - 1);
      var q, e, es := Run(t[..j - 1]), t[j - 1], t[i + 1..j];
      assert es[..|es| - 1] == t[i + 1..j - 1] && es[|es| - 1] == e;
      CycleRunNext(es);
      InCycleStep(q, e);
    }
  }

  lemma SameCycleShorter(t: Trace, i: nat, j: nat)
    requires i + 1 < j <= |t| && SameCycle(t, i, j)
    ensures SameCycle(t, i, j - 1) && !t[j - 1].CycleEnd?
  {
  }

  lemma CycleRunNext(es: seq<Event>)
    requires es != []
    ensures CycleRun(es) == CycleStep(CycleRun(es[..|es| - 1]), es[|es| - 1])
  {
  }

  lemma CycleOpens(q: State)
    requires Step(q, CycleBegin) != Broken
    ensures Step(q, CycleBegin).InCycle? && Step(q, CycleBegin).cycle == Fresh
  {
  }

  lemma InCycleStep(q: State, e: Event)
    requires q.InCycle? && q.cycle != Off && Step(q, e) != Broken && !e.CycleEnd?
    ensures Step(q, e).InCycle? && Step(q, e).cycle == CycleStep(q.cycle, e) != Off
  {
  }

  /** A cycle's last phase is SUCCESS or FAIL, and SUCCESS is said nowhere else in it; it is
      SUCCESS exactly when the cycle returned true, exactly when the amplifier's LED went dark
      under the carrier. A cycle that succeeded has said FAIL exactly when switching the
      carrier off failed. */
  lemma CycleOutcome(t: Trace, i: nat, j: nat)
    requires Accepted(t) && i < j < |t| && t[i] == CycleBegin && t[j].CycleEnd? && SameCycle(t, i, j)
    ensures var ps := Phases(t[i + 1..j]);
            && ps != [] && SUCCESS !in ps[..|ps| - 1]
            && (ps[|ps| - 1] == SUCCESS || ps[|ps| - 1] == FAIL)
            && (ps[|ps| - 1] == SUCCESS <==> t[j].done)
            && (LED_OFF in ps <==> t[j].done)
            && (t[j].done ==> (FAIL in ps <==> CarrierOffFailed(t[i + 1..j])))
  {
    CycleWithin(t, i, j);
    AcceptedPrefix(t, j);
    AcceptedPrefix(t, j + 1);
    EndsOver(Run(t[..j]), t[j]);
    CyclePhases(t[i + 1..j]);
  }

  lemma EndsOver(q: State, e: Event)
    requires q.InCycle? && q.cycle != Off && e.CycleEnd? && Step(q, e) != Broken
    ensures q.cycle == Over(e.done)
  {
  }
}
