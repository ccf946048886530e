/**
 Tunes, pre-warming, disconnects and live reconfiguration contending for the radio
 controller's lock (spe/websocket_handler.py, spe/radio_controller.py,
 spe/tune_orchestrator.py). A message schedules a call; calls run in the order scheduled; a
 call checks what it checks and joins the lock's queue in the same step; the lock serves its
 queue in order. A call that finds the lock free and has nothing to await is served within its
 own step. Everything may interleave otherwise.
 */
module RadioLock {
  import opened Sequences
  import opened Text
  import opened RadioSettings

  datatype Message = TuneMsg | ConnectMsg | DisconnectMsg | ConfigMsg(payload: Payload)

  /** What waits for the lock. An edit was made from the configuration `from` when its call
      ran; `behind` tells whether another edit was waiting then. */
  datatype Job =
    | TuneConnect | TuneRelease | PreWarm | DropLink
    | Reconf(wanted: Config, payload: Payload, from: Config, behind: bool)

  /** Where the tune that `_running` stands for is: waiting for its connection, holding it
      (since `connect()` returned under `held`), or waiting to release it. */
  datatype Phase = Idle | Connecting | Holding(held: Config) | Releasing

  /** `scheduled`: calls whose turn on the loop has not come. `built`: the configuration the
      link was built under, `alive` while the far end stands. `cuts`: closes under a tune that
      held the link. */
  datatype System = System(
    app: Config, controller: Config, built: Option<Config>, alive: bool,
    scheduled: seq<Message>, waiting: seq<Job>, phase: Phase, cuts: nat)

  datatype Event =
    | Arrives(message: Message) | CallRuns | LockServes(reached: bool) | LinkDies | TuneEnds

  function Start(c: Config): System {
    System(c, c, None, false, [], [], Idle, 0)
  }

  /** A connect gets as far as the network. */
  predicate CanConnect(c: Config) {
    c.kind == "flex" || (c.kind == "tci" && c.tci.host != "")
  }

  predicate Linked(s: System) {
    s.built.Some? && s.alive
  }

  /** `is_running` is looked at when a disconnect message arrives, not when its call runs. */
  function Arrive(s: System, m: Message): System {
    if m.DisconnectMsg? && !s.phase.Idle? then s else s.(scheduled := s.scheduled + [m])
  }

  function Enqueue(s: System, j: Job): System {
    s.(waiting := s.waiting + [j])
  }

  /** The lock is free and the job has nothing to await. */
  predicate AtOnce(s: System, j: Job) {
    s.waiting == [] &&
    if j.TuneConnect? || j.PreWarm? then Linked(s) || !CanConnect(s.controller) else s.built.None?
  }

  /** A tune lets go of the radio. */
  function LetGo(s: System): System {
    if AtOnce(s, TuneRelease) then s.(phase := Idle) else Enqueue(s, TuneRelease).(phase := Releasing)
  }

  function Serve(s: System, j: Job, reached: bool): System {
    var cut := s.cuts + if s.phase.Holding? then 1 else 0;
    match j
    case TuneConnect =>
      if Linked(s) then s.(phase := Holding(s.controller))
      else if reached && CanConnect(s.controller)
      then s.(built := Some(s.controller), alive := true, phase := Holding(s.controller))
      else LetGo(s)
    case TuneRelease => s.(built := None, phase := Idle)
    case PreWarm =>
      if !Linked(s) && reached && CanConnect(s.controller)
      then s.(built := Some(s.controller), alive := true) else s
    case DropLink => s.(built := None, cuts := cut)
    case Reconf(wanted, _, _, _) => s.(built := None, controller := wanted, app := wanted, cuts := cut)
  }

  function Join(s: System, j: Job): System {
    if AtOnce(s, j) then Serve(s, j, false) else Enqueue(s, j)
  }

  function EditJob(s: System, p: Payload): Job
    requires Applied(s.app, p).Accepted?
  {
    Reconf(Applied(s.app, p).config, p, s.app, !NoReconf(s.waiting))
  }

  function Call(s: System, m: Message): System {
    match m
    case TuneMsg => if !s.phase.Idle? then s else Join(s.(phase := Connecting), TuneConnect)
    case ConnectMsg => Join(s, PreWarm)
    case DisconnectMsg => Join(s, DropLink)
    case ConfigMsg(p) =>
      if !s.phase.Idle? || !Applied(s.app, p).Accepted? then s else Join(s, EditJob(s, p))
  }

  function Head(s: System, reached: bool): System
    requires s.waiting != []
  {
    Serve(s.(waiting := s.waiting[1..]), s.waiting[0], reached)
  }

  function Step(s: System, e: Event): System {
    match e
    case Arrives(m) => Arrive(s, m)
    case CallRuns =>
      if s.scheduled == [] then s else Call(s.(scheduled := s.scheduled[1..]), s.scheduled[0])
    case LockServes(reached) => if s.waiting == [] then s else Head(s, reached)
    case LinkDies => s.(alive := false)
    case TuneEnds => if s.phase.Holding? then LetGo(s) else s
  }

  function Run(c: Config, es: seq<Event>): System {
    if es == [] then Start(c) else Step(Run(c, es[..|es| - 1]), es[|es| - 1])
  }

  lemma RunSnoc(c: Config, es: seq<Event>, e: Event)
    ensures Run(c, es + [e]) == Step(Run(c, es), e)
  {
    FrontOfSnoc(es, e);
  }

  /** Being served at once is joining the queue and being served next. */
  lemma JoinIsServedNext(s: System, j: Job)
    ensures Join(s, j) == if AtOnce(s, j) then Head(Enqueue(s, j), false) else Enqueue(s, j)
  {
    if s.waiting == [] {
      assert Enqueue(s, j).waiting == [j] && [j][1..] == [];
    }
  }

  // ------------------------------------------------------------ no swap under a tune

  predicate NoReconf(jobs: seq<Job>) {
    forall j :: j in jobs ==> !j.Reconf?
  }

  predicate NoTuneJob(jobs: seq<Job>) {
    TuneConnect !in jobs && TuneRelease !in jobs
  }

  /** One tune job, of kind `mine`, with no swap behind it. */
  predicate Queued(jobs: seq<Job>, mine: Job) {
    exists i :: 0 <= i < |jobs| && jobs[i] == mine && NoTuneJob(jobs[..i]) && NoTuneJob(jobs[i + 1..])
                && NoReconf(jobs[i + 1..])
  }

  predicate Safe(s: System) {
    && s.app == s.controller
    && (s.built.Some? ==> s.built.value == s.controller)
    && match s.phase
       case Idle => NoTuneJob(s.waiting)
       case Connecting => Queued(s.waiting, TuneConnect)
       case Holding(held) => held == s.controller && NoReconf(s.waiting) && NoTuneJob(s.waiting)
       case Releasing => Queued(s.waiting, TuneRelease) && NoReconf(s.waiting)
  }

  lemma QueuedBehind(jobs: seq<Job>, mine: Job, j: Job)
    requires Queued(jobs, mine) && !j.Reconf? && !j.TuneConnect? && !j.TuneRelease?
    ensures Queued(jobs + [j], mine)
  {
    var more := jobs + [j];
    var i :| 0 <= i < |jobs| && jobs[i] == mine && NoTuneJob(jobs[..i]) && NoTuneJob(jobs[i + 1..])
             && NoReconf(jobs[i + 1..]);
    assert more[i] == mine && more[..i] == jobs[..i] && more[i + 1..] == jobs[i + 1..] + [j];
  }

  lemma QueuedLast(jobs: seq<Job>, mine: Job)
    requires NoTuneJob(jobs)
    ensures Queued(jobs + [mine], mine)
  {
    var more := jobs + [mine];
    assert more[|jobs|] == mine && more[..|jobs|] == jobs && more[|jobs| + 1..] == [];
  }

  lemma QueuedHead(jobs: seq<Job>, mine: Job)
    requires Queued(jobs, mine) && (mine.TuneConnect? || mine.TuneRelease?)
    ensures jobs != []
    ensures jobs[0] == mine ==> NoReconf(jobs[1..]) && NoTuneJob(jobs[1..])
    ensures jobs[0] != mine ==> Queued(jobs[1..], mine) && !jobs[0].TuneConnect? && !jobs[0].TuneRelease?
  {
    var i :| 0 <= i < |jobs| && jobs[i] == mine && NoTuneJob(jobs[..i]) && NoTuneJob(jobs[i + 1..])
             && NoReconf(jobs[i + 1..]);
    if i > 0 {
      assert jobs[..i][0] == jobs[0];
      var rest := jobs[1..];
      assert rest[i - 1] == mine && rest[i..] == jobs[i + 1..] && rest[..i - 1] == jobs[..i][1..];
      assert Queued(rest, mine);
    }
  }

  lemma SafeBehind(s: System, j: Job)
    requires Safe(s) && !j.TuneConnect? && !j.TuneRelease? && (j.Reconf? ==> s.phase.Idle?)
    ensures Safe(Enqueue(s, j))
  {
    hide Queued;
    if s.phase.Connecting? {
      QueuedBehind(s.waiting, TuneConnect, j);
    } else if s.phase.Releasing? {
      QueuedBehind(s.waiting, TuneRelease, j);
    }
  }

  lemma SafeLetGo(s: System)
    requires s.app == s.controller && (s.built.Some? ==> s.built.value == s.controller)
    requires NoReconf(s.waiting) && NoTuneJob(s.waiting)
    ensures Safe(LetGo(s))
  {
    QueuedLast(s.waiting, TuneRelease);
  }

  lemma SafeHead(s: System, reached: bool)
    requires Safe(s) && s.waiting != []
    ensures Safe(Head(s, reached))
    ensures s.waiting[0].Reconf? ==> !s.phase.Holding? && !s.phase.Releasing?
  {
    hide Queued, LetGo;
    var rest := s.waiting[1..];
    assert s.waiting[0] in s.waiting && forall j :: j in rest ==> j in s.waiting;
    if s.phase.Connecting? {
      QueuedHead(s.waiting, TuneConnect);
    } else if s.phase.Releasing? {
      QueuedHead(s.waiting, TuneRelease);
    }
    if s.waiting[0].TuneConnect? {
      SafeLetGo(s.(waiting := rest));
    }
  }

  lemma SafeJoin(s: System, j: Job)
    requires Safe(Enqueue(s, j))
    ensures Safe(Join(s, j))
  {
    hide Safe, Head, Join;
    JoinIsServedNext(s, j);
    SafeHead(Enqueue(s, j), false);
  }

  lemma SafeCall(s: System, m: Message)
    requires Safe(s)
    ensures Safe(Call(s, m))
  {
    hide Queued, Join, Applied;
    match m
    case TuneMsg =>
      if s.phase.Idle? {
        QueuedLast(s.waiting, TuneConnect);
        SafeJoin(s.(phase := Connecting), TuneConnect);
      }
    case ConnectMsg => SafeBehind(s, PreWarm); SafeJoin(s, PreWarm);
    case DisconnectMsg => SafeBehind(s, DropLink); SafeJoin(s, DropLink);
    case ConfigMsg(p) =>
      if s.phase.Idle? && Applied(s.app, p).Accepted? {
        SafeBehind(s, EditJob(s, p));
        SafeJoin(s, EditJob(s, p));
      }
  }

  lemma SafeStep(s: System, e: Event)
    requires Safe(s)
    ensures Safe(Step(s, e))
  {
    hide Call, Head, LetGo;
    match e
    case CallRuns =>
      if s.scheduled != [] {
        SafeCall(s.(scheduled := s.scheduled[1..]), s.scheduled[0]);
      }
    case LockServes(reached) =>
      if s.waiting != [] {
        SafeHead(s, reached);
      }
    case TuneEnds =>
      if s.phase.Holding? {
        SafeLetGo(s);
      }
    case _ =>
  }

  lemma {:induction false} AlwaysSafe(c: Config, es: seq<Event>)
    ensures Safe(Run(c, es))
  {
    if es != [] {
      AlwaysSafe(c, es[..|es| - 1]);
      SafeStep(Run(c, es[..|es| - 1]), es[|es| - 1]);
    }
  }

  /** In every interleaving the controller works under the application's configuration and its
      link was built under it; and a tune that holds the link holds it under that one. */
  lemma TuneKeepsItsConfig(c: Config, es: seq<Event>)
    ensures var s := Run(c, es);
            && s.app == s.controller
            && (s.built.Some? ==> s.built.value == s.controller)
            && (s.phase.Holding? ==> s.phase.held == s.controller)
  {
    AlwaysSafe(c, es);
  }

  lemma HeldStays(s: System, e: Event)
    requires Safe(s) && s.phase.Holding? && Step(s, e).phase.Holding?
    ensures Step(s, e).phase.held == s.phase.held
  {
    if e.LockServes? && s.waiting != [] {
      assert s.waiting[0] in s.waiting;
    }
  }

  /** For as long as a tune holds the radio, the backend, the channel and the power its cycles
      read from the controller are the same. */
  lemma {:induction false} TuneReadsOneRadio(c: Config, es: seq<Event>, i: nat, j: nat)
    requires i <= j <= |es| && forall k :: i <= k <= j ==> Run(c, es[..k]).phase.Holding?
    ensures var first, last := Run(c, es[..i]).controller, Run(c, es[..j]).controller;
            first.kind == last.kind && Channel(first) == Channel(last) && Watts(first) == Watts(last)
            && first == last == Run(c, es[..j]).phase.held
    decreases j
  {
    hide Step, Safe;
    TuneKeepsItsConfig(c, es[..j]);
    if i < j {
      TuneReadsOneRadio(c, es, i, j - 1);
      AlwaysSafe(c, es[..j - 1]);
      assert es[..j][..j - 1] == es[..j - 1] && es[..j][j - 1] == es[j - 1];
      HeldStays(Run(c, es[..j - 1]), es[j - 1]);
      TuneKeepsItsConfig(c, es[..j - 1]);
    }
  }

  /** No swap is served from the moment a tune's `connect()` returns until its release. */
  lemma NoSwapUnderTune(c: Config, es: seq<Event>, reached: bool)
    ensures var s := Run(c, es);
            s.waiting != [] && s.waiting[0].Reconf? ==>
              !s.phase.Holding? && !s.phase.Releasing? &&
              Run(c, es + [LockServes(reached)]).controller == s.waiting[0].wanted
  {
    AlwaysSafe(c, es);
    var s := Run(c, es);
    FrontOfSnoc(es, LockServes(reached));
    if s.waiting != [] {
      SafeHead(s, reached);
    }
  }

  /** However a tune comes to its end, the step that ends it leaves no link open. */
  lemma EndedTuneLeavesNoLink(c: Config, es: seq<Event>, e: Event)
    requires !Run(c, es).phase.Idle? && Run(c, es + [e]).phase.Idle?
    ensures Run(c, es + [e]).built == None
  {
    hide Applied;
    RunSnoc(c, es, e);
    AlwaysSafe(c, es);
    var s := Run(c, es);
    if e.LockServes? && s.waiting != [] {
      assert s.waiting[0] in s.waiting;
    }
  }

  /** A tune that gets the lock holds the radio at once if the link stands or the radio can be
      reached under the configuration, and only then; a connect asked for by a client brings the
      link up in the same cases. */
  lemma ConnectsWhenItCan(c: Config, es: seq<Event>, reached: bool)
    requires Run(c, es).waiting != []
    ensures var s, r := Run(c, es), Run(c, es + [LockServes(reached)]);
            var connected := (s.built.Some? && s.alive) || (reached && CanConnect(s.controller));
            && (s.waiting[0] == TuneConnect ==> (r.phase == Holding(s.controller) <==> connected))
            && (s.waiting[0] == TuneConnect || s.waiting[0] == PreWarm ==>
                  (connected ==> r.built.Some? && r.alive))
            && (s.waiting[0] == DropLink ==> r.built == None)
  {
    RunSnoc(c, es, LockServes(reached));
  }

  /** A second tune, an edit and a disconnect that come while a tune runs do nothing. */
  lemma RunningTuneTurnsAway(c: Config, es: seq<Event>)
    requires !Run(c, es).phase.Idle?
    ensures Run(c, es + [Arrives(DisconnectMsg)]) == Run(c, es)
    ensures var s := Run(c, es);
            s.scheduled != [] && (s.scheduled[0].TuneMsg? || s.scheduled[0].ConfigMsg?) ==>
              Run(c, es + [CallRuns]) == s.(scheduled := s.scheduled[1..])
  {
    RunSnoc(c, es, Arrives(DisconnectMsg));
    RunSnoc(c, es, CallRuns);
  }

  // ------------------------------------------------------------ edits that overlap

  /** An edit waits as it was made; one that found no other edit waiting was made from the
      configuration it will be served under. */
  predicate EditOk(app: Config, jobs: seq<Job>, i: nat)
    requires i < |jobs|
  {
    var j := jobs[i];
    j.Reconf? ==>
      Applied(j.from, j.payload) == Accepted(j.wanted) && InRange(j.wanted) &&
      (!j.behind ==> j.from == app && NoReconf(jobs[..i]))
  }

  predicate Edits(app: Config, jobs: seq<Job>) {
    InRange(app) && forall i :: 0 <= i < |jobs| ==> EditOk(app, jobs, i)
  }

  lemma EditsSnoc(app: Config, jobs: seq<Job>, j: Job)
    requires Edits(app, jobs)
    requires j.Reconf? ==> Applied(app, j.payload) == Accepted(j.wanted) && j.from == app && InRange(j.wanted)
                           && j.behind == !NoReconf(jobs)
    ensures Edits(app, jobs + [j])
  {
    hide Applied, InRange;
    var more := jobs + [j];
    forall i | 0 <= i < |more|
      ensures EditOk(app, more, i)
    {
      if i < |jobs| {
        assert EditOk(app, jobs, i) && more[..i] == jobs[..i];
      } else {
        assert more[..i] == jobs;
      }
    }
  }

  lemma EditsTail(app: Config, jobs: seq<Job>)
    requires Edits(app, jobs) && jobs != []
    ensures Edits(if jobs[0].Reconf? then jobs[0].wanted else app, jobs[1..])
  {
    hide Applied, InRange;
    var rest, now := jobs[1..], if jobs[0].Reconf? then jobs[0].wanted else app;
    assert EditOk(app, jobs, 0);
    forall i | 0 <= i < |rest|
      ensures EditOk(now, rest, i)
    {
      assert EditOk(app, jobs, i + 1);
      assert jobs[..i + 1] == [jobs[0]] + rest[..i];
      assert jobs[0] in jobs[..i + 1] && forall j :: j in rest[..i] ==> j in jobs[..i + 1];
    }
  }

  lemma EditsHead(s: System, reached: bool)
    requires Edits(s.app, s.waiting) && s.waiting != []
    ensures Edits(Head(s, reached).app, Head(s, reached).waiting)
  {
    hide Edits, AtOnce;
    EditsTail(s.app, s.waiting);
    if !s.waiting[0].Reconf? {
      EditsSnoc(s.app, s.waiting[1..], TuneRelease);
    }
  }

  lemma EditsJoin(s: System, j: Job)
    requires Edits(s.app, s.waiting)
    requires j.Reconf? ==> Applied(s.app, j.payload) == Accepted(j.wanted) && j.from == s.app && InRange(j.wanted)
                           && j.behind == !NoReconf(s.waiting)
    ensures Edits(Join(s, j).app, Join(s, j).waiting)
  {
    hide Edits, Join, Head, AtOnce;
    EditsSnoc(s.app, s.waiting, j);
    JoinIsServedNext(s, j);
    EditsHead(Enqueue(s, j), false);
  }

  lemma EditsStep(s: System, e: Event)
    requires Edits(s.app, s.waiting)
    ensures Edits(Step(s, e).app, Step(s, e).waiting)
  {
    hide Join, Head, Applied, InRange, AtOnce, EditOk;
    match e
    case CallRuns =>
      if s.scheduled != [] {
        var r := s.(scheduled := s.scheduled[1..]);
        match s.scheduled[0] {
          case TuneMsg => EditsJoin(r.(phase := Connecting), TuneConnect);
          case ConnectMsg => EditsJoin(r, PreWarm);
          case DisconnectMsg => EditsJoin(r, DropLink);
          case ConfigMsg(p) =>
            if Applied(s.app, p).Accepted? {
              EditsStayInRange(s.app, p);
              EditsJoin(r, EditJob(r, p));
            }
        }
      }
    case LockServes(reached) =>
      if s.waiting != [] {
        EditsHead(s, reached);
      }
    case TuneEnds => EditsSnoc(s.app, s.waiting, TuneRelease);
    case _ =>
  }

  lemma {:induction false} AlwaysEdits(c: Config, es: seq<Event>)
    requires InRange(c)
    ensures Edits(Run(c, es).app, Run(c, es).waiting)
  {
    if es != [] {
      hide Step, Edits;
      AlwaysEdits(c, es[..|es| - 1]);
      EditsStep(Run(c, es[..|es| - 1]), es[|es| - 1]);
    } else {
      hide InRange;
    }
  }

  /** The configuration stays within the ranges, however many edits interleave. */
  lemma ConfigStaysInRange(c: Config, es: seq<Event>)
    requires InRange(c)
    ensures InRange(Run(c, es).app) && InRange(Run(c, es).controller)
  {
    AlwaysEdits(c, es);
    AlwaysSafe(c, es);
  }

  /** What an accepted edit's call does: it is served within the call, or waits, marked with the
      configuration it was made from and with whether another edit was ahead of it. */
  lemma EditIsMade(c: Config, es: seq<Event>, p: Payload)
    requires var s := Run(c, es);
             s.scheduled != [] && s.scheduled[0] == ConfigMsg(p) && s.phase.Idle? && Applied(s.app, p).Accepted?
    ensures var s, r := Run(c, es), Run(c, es + [CallRuns]);
            if s.waiting == [] && s.built.None? then Accepted(r.app) == Applied(s.app, p) && r.waiting == []
            else r.app == s.app &&
                 r.waiting == s.waiting + [Reconf(Applied(s.app, p).config, p, s.app, !NoReconf(s.waiting))]
  {
    hide Applied;
    RunSnoc(c, es, CallRuns);
  }

  /** When a waiting edit is served, the outcome is the edit applied to what the configuration
      was when its call ran. If no other edit was ahead of it, that is the edit applied to the
      configuration it is served under. If one was, it still is exactly when the edits served
      in between changed no field that this edit leaves alone; otherwise their changes to those
      fields are undone. */
  lemma EditIsServed(c: Config, es: seq<Event>, reached: bool)
    requires InRange(c) && Run(c, es).waiting != [] && Run(c, es).waiting[0].Reconf?
    ensures var s, j, after := Run(c, es), Run(c, es).waiting[0], Run(c, es + [LockServes(reached)]).app;
            && Applied(j.from, j.payload) == Accepted(after)
            && (!j.behind ==> j.from == s.app)
            && Applied(s.app, j.payload).Accepted?
            && (Applied(s.app, j.payload) == Accepted(after) <==> AgreeElsewhere(j.from, s.app, j.payload))
  {
    hide Applied, AgreeElsewhere;
    var s := Run(c, es);
    AlwaysEdits(c, es);
    assert EditOk(s.app, s.waiting, 0);
    RunSnoc(c, es, LockServes(reached));
    hide InRange;
    var j := s.waiting[0];
    AcceptedAnywhere(j.from, s.app, j.payload);
    SameOutcome(j.from, s.app, j.payload);
  }

  /** Two clients: one selects TCI, the other only moves the Flex port. */
  const SELECT_TCI := Payload(Some(JText("tci")), Absent, Absent)
  const MOVE_PORT := Payload(None, Fields(map["port" := JInt(5000)]), Absent)

  lemma SelectTci(c: Config)
    ensures Applied(c, SELECT_TCI) == Accepted(Config("tci", c.flex.(enabled := false), c.tci))
  {
    KindNameBack("tci");
  }

  lemma MovePort(c: Config)
    requires KnownKind(c.kind)
    ensures Applied(c, MOVE_PORT) == Accepted(c.(flex := c.flex.(port := 5000, enabled := c.kind == "flex")))
  {
    hide CoerceInt, KindName;
    KindNameBack(c.kind);
    CoerceIntBack(5000, 1, 65535);
    assert MOVE_PORT.flex.values["port"] == JInt(5000);
  }

  lemma TwoMore(c: Config, es: seq<Event>, a: Event, b: Event)
    ensures Run(c, es + [a] + [b]) == Step(Step(Run(c, es), a), b)
  {
    RunSnoc(c, es, a);
    RunSnoc(c, es + [a], b);
  }

  /** While a client's connect is still under way. */
  lemma ConnectUnderWay(c: Config) returns (es: seq<Event>)
    requires c.kind == "flex"
    ensures Run(c, es) == Start(c).(waiting := [PreWarm])
  {
    es := [] + [Arrives(ConnectMsg)] + [CallRuns];
    TwoMore(c, [], Arrives(ConnectMsg), CallRuns);
    assert Run(c, []) == Start(c);
    var s := Arrive(Start(c), ConnectMsg);
    assert s == Start(c).(scheduled := [ConnectMsg]) && s.scheduled[1..] == [];
  }

  lemma BothEditsWait(c: Config, s: System, p: Payload, q: Payload)
    requires s == Start(c).(waiting := [PreWarm]) && Applied(c, p).Accepted? && Applied(c, q).Accepted?
    ensures var r := Step(Step(Step(Step(s, Arrives(ConfigMsg(p))), Arrives(ConfigMsg(q))), CallRuns), CallRuns);
            r == s.(waiting := [PreWarm, Reconf(Applied(c, p).config, p, c, false),
                                Reconf(Applied(c, q).config, q, c, true)])
  {
    hide Applied;
    var a := s.(scheduled := [ConfigMsg(p), ConfigMsg(q)]);
    assert Step(Step(s, Arrives(ConfigMsg(p))), Arrives(ConfigMsg(q))) == a;
    assert a.scheduled[1..] == [ConfigMsg(q)] && [ConfigMsg(q)][1..] == [];
    var j, k := Reconf(Applied(c, p).config, p, c, false), Reconf(Applied(c, q).config, q, c, true);
    assert [PreWarm] + [j] == [PreWarm, j] && [PreWarm, j] + [k] == [PreWarm, j, k];
    assert NoReconf([PreWarm]);
    assert j in [PreWarm, j];
  }

  lemma BothEditsServed(s: System, a: Config, b: Config)
    requires |s.waiting| == 3 && s.waiting[0] == PreWarm
    requires s.waiting[1].Reconf? && s.waiting[1].wanted == a && s.waiting[2].Reconf? && s.waiting[2].wanted == b
    ensures var r := Step(Step(s, LockServes(true)), LockServes(true));
            r.app == a && Step(r, LockServes(true)).app == b && Step(r, LockServes(true)).waiting == []
  {
    assert s.waiting[1..] == [s.waiting[1], s.waiting[2]] && [s.waiting[1], s.waiting[2]][1..] == [s.waiting[2]];
  }

  /** An edit can be undone by one that did not touch its field: both calls ran while a connect
      held the lock, and the later one put the old kind back. */
  lemma EditIsUndone(c: Config) returns (es: seq<Event>)
    requires InRange(c) && c.kind == "flex"
    ensures Run(c, es).waiting == [] && Run(c, es).app.kind == "flex" && Run(c, es).app.flex.port == 5000
    ensures Arrives(ConfigMsg(SELECT_TCI)) in es && Arrives(ConfigMsg(MOVE_PORT)) in es
    ensures es != [] && Run(c, es[..|es| - 1]).app.kind == "tci"
  {
    hide Applied, InRange, Run;
    SelectTci(c);
    MovePort(c);
    var p, q := Arrives(ConfigMsg(SELECT_TCI)), Arrives(ConfigMsg(MOVE_PORT));
    es := ConnectUnderWay(c);
    BothEditsWait(c, Run(c, es), SELECT_TCI, MOVE_PORT);
    hide Step;
    TwoMore(c, es, p, q);
    es := es + [p] + [q];
    TwoMore(c, es, CallRuns, CallRuns);
    es := es + [CallRuns] + [CallRuns];
    BothEditsServed(Run(c, es), Applied(c, SELECT_TCI).config, Applied(c, MOVE_PORT).config);
    TwoMore(c, es, LockServes(true), LockServes(true));
    es := es + [LockServes(true)] + [LockServes(true)];
    RunSnoc(c, es, LockServes(true));
    FrontOfSnoc(es, LockServes(true));
    es := es + [LockServes(true)];
  }

  // ------------------------------------------------------------ a disconnect under a tune

  /** A disconnect message arrives with no tune running but one already asked for. */
  predicate Races(s: System, e: Event) {
    s.phase.Idle? && e == Arrives(DisconnectMsg) && TuneMsg in s.scheduled
  }

  predicate RaceFree(c: Config, es: seq<Event>) {
    forall i :: 0 <= i < |es| ==> !Races(Run(c, es[..i]), es[i])
  }

  /** Disconnect calls stand before tune calls, and none is left once a tune is under way. */
  predicate Uncut(s: System) {
    && s.cuts == 0
    && (forall i, j :: 0 <= i < j < |s.scheduled| && s.scheduled[i].TuneMsg? ==> !s.scheduled[j].DisconnectMsg?)
    && (!s.phase.Idle? ==> DisconnectMsg !in s.scheduled)
    && (s.phase.Holding? || s.phase.Releasing? ==> DropLink !in s.waiting)
    && (s.phase.Connecting? ==>
          forall i, j :: 0 <= i < j < |s.waiting| && s.waiting[i].TuneConnect? ==> !s.waiting[j].DropLink?)
  }

  lemma UncutHead(s: System, reached: bool)
    requires Safe(s) && Uncut(s) && s.waiting != []
    ensures Uncut(Head(s, reached))
  {
    hide Queued;
    var j, rest := s.waiting[0], s.waiting[1..];
    assert j in s.waiting && forall x :: x in rest ==> x in s.waiting;
    SafeHead(s, reached);
    if s.phase.Connecting? {
      QueuedHead(s.waiting, TuneConnect);
    } else if s.phase.Releasing? {
      QueuedHead(s.waiting, TuneRelease);
    }
  }

  lemma UncutJoin(s: System, j: Job)
    requires Safe(Enqueue(s, j)) && Uncut(Enqueue(s, j))
    ensures Uncut(Join(s, j))
  {
    hide Safe, Uncut, Head, Join;
    JoinIsServedNext(s, j);
    UncutHead(Enqueue(s, j), false);
  }

  lemma SafeIdle(s: System)
    requires Safe(s) && s.phase.Idle?
    ensures TuneConnect !in s.waiting
  {
  }

  lemma UncutCall(s: System)
    requires Safe(s) && Uncut(s) && s.scheduled != []
    ensures Uncut(Step(s, CallRuns))
  {
    hide Safe, Applied, Join;
    var m, rest := s.scheduled[0], s.scheduled[1..];
    assert m in s.scheduled && forall x :: x in rest ==> x in s.scheduled;
    var r := s.(scheduled := rest);
    SafeRest(s);
    match m
    case TuneMsg =>
      if s.phase.Idle? {
        SafeIdle(s);
        assert DisconnectMsg !in rest;
        SafeTune(r);
        UncutJoin(r.(phase := Connecting), TuneConnect);
      }
    case ConnectMsg => SafeBehind(r, PreWarm); UncutJoin(r, PreWarm);
    case DisconnectMsg => SafeBehind(r, DropLink); UncutJoin(r, DropLink);
    case ConfigMsg(p) =>
      if s.phase.Idle? && Applied(s.app, p).Accepted? {
        SafeBehind(r, EditJob(r, p));
        UncutJoin(r, EditJob(r, p));
      }
  }

  lemma SafeRest(s: System)
    requires Safe(s) && s.scheduled != []
    ensures Safe(s.(scheduled := s.scheduled[1..]))
  {
  }

  lemma SafeTune(s: System)
    requires Safe(s) && s.phase.Idle?
    ensures Safe(Enqueue(s.(phase := Connecting), TuneConnect))
  {
    QueuedLast(s.waiting, TuneConnect);
  }

  lemma UncutStep(s: System, e: Event)
    requires Safe(s) && Uncut(s) && !Races(s, e)
    ensures Uncut(Step(s, e))
  {
    match e
    case CallRuns =>
      if s.scheduled != [] {
        UncutCall(s);
      }
    case LockServes(reached) =>
      if s.waiting != [] {
        UncutHead(s, reached);
      }
    case _ =>
  }

  lemma {:induction false} AlwaysUncut(c: Config, es: seq<Event>)
    requires RaceFree(c, es)
    ensures Uncut(Run(c, es))
  {
    if es != [] {
      var front := es[..|es| - 1];
      assert forall i :: 0 <= i < |front| ==> front[..i] == es[..i];
      AlwaysUncut(c, front);
      AlwaysSafe(c, front);
      UncutStep(Run(c, front), es[|es| - 1]);
    }
  }

  /** A link is never closed under a tune that holds it, unless a disconnect message arrived
      while no tune ran but a tune's call was still scheduled. */
  lemma LinkIsNotCut(c: Config, es: seq<Event>)
    requires RaceFree(c, es)
    ensures Run(c, es).cuts == 0
  {
    AlwaysUncut(c, es);
  }

  /** A tune's connect and, behind it, a disconnect, with nothing ahead that changes the kind. */
  predicate Doomed(s: System, ahead: seq<Job>) {
    && s.waiting == ahead + [TuneConnect, DropLink] && CanConnect(s.controller)
    && NoReconf(ahead) && NoTuneJob(ahead)
  }

  lemma DoomedHead(s: System, ahead: seq<Job>)
    requires Doomed(s, ahead) && s.phase.Connecting?
    ensures var r := Step(s, LockServes(true));
            if ahead == [] then r.phase.Holding? && r.waiting == [DropLink] && r.built.Some? && r.cuts == s.cuts
            else Doomed(r, ahead[1..]) && r.phase.Connecting? && r.cuts == s.cuts
  {
    if ahead == [] {
      assert s.waiting[0] == TuneConnect && s.waiting[1..] == [DropLink];
    } else {
      assert s.waiting[0] == ahead[0] && ahead[0] in ahead;
      assert s.waiting[1..] == ahead[1..] + [TuneConnect, DropLink];
      assert forall j :: j in ahead[1..] ==> j in ahead;
    }
  }

  lemma {:induction false} DoomedIsCut(c: Config, es: seq<Event>, ahead: seq<Job>) returns (more: seq<Event>)
    requires Doomed(Run(c, es), ahead) && Run(c, es).phase.Connecting?
    ensures Run(c, es + more).cuts == Run(c, es).cuts + 1 && Run(c, es + more).phase.Holding?
    ensures Run(c, es + more).built == None
    decreases |ahead|
  {
    hide Step, Run, Doomed;
    var s := Run(c, es);
    DoomedHead(s, ahead);
    RunSnoc(c, es, LockServes(true));
    if ahead == [] {
      DropUnderTune(Run(c, es + [LockServes(true)]));
      RunSnoc(c, es + [LockServes(true)], LockServes(true));
      more := [LockServes(true)] + [LockServes(true)];
      SumAssociates(es, [LockServes(true)], [LockServes(true)]);
    } else {
      var rest := DoomedIsCut(c, es + [LockServes(true)], ahead[1..]);
      more := [LockServes(true)] + rest;
      SumAssociates(es, [LockServes(true)], rest);
    }
  }

  lemma DropUnderTune(s: System)
    requires s.phase.Holding? && s.waiting == [DropLink]
    ensures var r := Step(s, LockServes(true)); r.cuts == s.cuts + 1 && r.phase.Holding? && r.built == None
  {
  }

  /** The link stands: the tune's connect returns within its own call, and the disconnect's
      call then closes the link under it. */
  lemma LinkedIsDoomed(s: System)
    requires s.phase.Idle? && s.scheduled == [TuneMsg, DisconnectMsg] && s.waiting == [] && Linked(s)
    ensures var r := Step(Step(s, CallRuns), CallRuns);
            r.phase.Holding? && r.waiting == [DropLink] && r.cuts == s.cuts
  {
    assert s.scheduled[1..] == [DisconnectMsg];
  }

  lemma UnlinkedIsDoomed(s: System)
    requires s.phase.Idle? && s.scheduled == [TuneMsg, DisconnectMsg] && (s.waiting != [] || !Linked(s))
    requires CanConnect(s.controller) && NoReconf(s.waiting) && NoTuneJob(s.waiting)
    ensures var r := Step(Step(s, CallRuns), CallRuns);
            Doomed(r, s.waiting) && r.phase.Connecting? && r.cuts == s.cuts
  {
    assert s.scheduled[1..] == [DisconnectMsg];
    assert s.waiting + [TuneConnect] + [DropLink] == s.waiting + [TuneConnect, DropLink];
  }

  /** The race is real wherever it occurs: from any reachable state in which a disconnect
      arrives with only a tune's call scheduled, under a configuration that can connect and
      that no waiting edit will change, some continuation closes the link under that tune. */
  lemma RacingDisconnectCutsTune(c: Config, es: seq<Event>) returns (more: seq<Event>)
    requires Races(Run(c, es), Arrives(DisconnectMsg)) && Run(c, es).scheduled == [TuneMsg]
    requires CanConnect(Run(c, es).controller) && NoReconf(Run(c, es).waiting)
    ensures var r := Run(c, es + [Arrives(DisconnectMsg)] + more);
            r.cuts == Run(c, es).cuts + 1 && r.phase.Holding? && r.built == None
  {
    hide Run, Doomed, Queued;
    var s := Run(c, es);
    AlwaysSafe(c, es);
    RunSnoc(c, es, Arrives(DisconnectMsg));
    var asked := es + [Arrives(DisconnectMsg)];
    var a := Run(c, asked);
    assert a == s.(scheduled := [TuneMsg, DisconnectMsg]);
    hide Step;
    TwoMore(c, asked, CallRuns, CallRuns);
    var called := asked + [CallRuns] + [CallRuns];
    if a.waiting == [] && Linked(a) {
      LinkedIsDoomed(a);
      DropUnderTune(Run(c, called));
      RunSnoc(c, called, LockServes(true));
      more := [CallRuns] + [CallRuns] + [LockServes(true)];
      assert called + [LockServes(true)] == asked + more;
    } else {
      UnlinkedIsDoomed(a);
      var rest := DoomedIsCut(c, called, a.waiting);
      more := [CallRuns] + [CallRuns] + rest;
      assert called + rest == asked + more;
    }
  }
}
