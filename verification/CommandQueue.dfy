/**
 The write side of spe/serial_handler.py: user commands wait in a queue, status polls and
 RCU ticks are written directly, and a teardown empties the queue. Every attempt to write is
 logged with what became of it.
 */
module CommandQueue {
  import opened Sequences
  import opened Text
  import SerialFraming

  type Packet = seq<SerialFraming.byte>

  function Keycode(code: SerialFraming.byte): Packet {
    [0x55, 0x55, 0x55, 0x01, code, code]
  }

  const REQUEST := Keycode(0x90)
  const RCU_ON := Keycode(0x80)
  const RCU_OFF := Keycode(0x81)

  const KEYCODES: map<string, Packet> := map[
    "input" := Keycode(0x01), "band_dn" := Keycode(0x02), "band_up" := Keycode(0x03),
    "antenna" := Keycode(0x04), "l_minus" := Keycode(0x05), "l_plus" := Keycode(0x06),
    "c_minus" := Keycode(0x07), "c_plus" := Keycode(0x08), "tune" := Keycode(0x09),
    "power_off" := Keycode(0x0A), "power_level" := Keycode(0x0B), "display" := Keycode(0x0C),
    "oper" := Keycode(0x0D), "cat" := Keycode(0x0E), "left" := Keycode(0x0F),
    "right" := Keycode(0x10), "set" := Keycode(0x11), "rcu_on" := RCU_ON, "rcu_off" := RCU_OFF,
    "backlight_on" := Keycode(0x82), "backlight_off" := Keycode(0x83), "gain" := Keycode(0x0B)]

  function Command(name: string): Option<Packet> {
    if name in KEYCODES then Some(KEYCODES[name]) else None
  }

  /** Packets the back-pressure rule may drop. */
  predicate Expendable(p: Packet) {
    p == RCU_OFF || p == RCU_ON || p == REQUEST
  }

  const MAX_WAITING := 64

  /** A queued user command: its place in the order of all accepted commands and the number
      of teardowns there had been when it was queued. */
  datatype Entry = Entry(id: nat, packet: Packet, epoch: nat)

  datatype Origin = User(entry: Entry) | Poll | Tick | Setup

  datatype Outcome = Skipped | HeldBack | Failed | Written

  /** One attempt to write; `waiting` commands were queued and `epoch` teardowns had happened. */
  datatype Attempt = Attempt(origin: Origin, packet: Packet, outcome: Outcome, waiting: nat, epoch: nat)

  /** How the port behaves during one write: bytes still unsent, and whether writing raises. */
  datatype Port = Port(unsent: nat, raises: bool)

  /** What became of a command that has left the queue. */
  datatype Fate = Attempted | Dropped

  /** `fates` is indexed by command: the queue is first in, first out, so the commands that
      have left it are the first ones accepted. */
  datatype Line = Line(
    queue: seq<Entry>,
    isOpen: bool,
    epoch: nat,
    fates: seq<Fate>,
    log: seq<Attempt>)

  const START := Line([], false, 0, [], [])

  datatype Event =
    | Send(command: string)
    | CommandTurn(port: Port)
    | PollTurn(port: Port)
    | TickTurn(packet: Packet, port: Port)
    | Opened(first: Port, second: Port)
    | PortDies
    | Teardown

  function WriteOutcome(s: Line, p: Packet, port: Port): Outcome {
    if !s.isOpen then Skipped
    else if Expendable(p) && port.unsent > MAX_WAITING then HeldBack
    else if port.raises then Failed
    else Written
  }

  function SafeWrite(s: Line, origin: Origin, p: Packet, port: Port): Line {
    s.(log := s.log + [Attempt(origin, p, WriteOutcome(s, p, port), |s.queue|, s.epoch)])
  }

  function Step(s: Line, e: Event): Line {
    match e
    case Send(command) =>
      (match Command(command)
       case None => s
       case Some(packet) => s.(queue := s.queue + [Entry(|s.fates| + |s.queue|, packet, s.epoch)]))
    case CommandTurn(port) =>
      if s.queue == [] then s
      else
        SafeWrite(s.(queue := s.queue[1..], fates := s.fates + [Attempted]),
                  User(s.queue[0]), s.queue[0].packet, port)
    case PollTurn(port) =>
      if s.queue != [] then s else SafeWrite(s, Poll, REQUEST, port)
    case TickTurn(packet, port) =>
      SafeWrite(s, Tick, packet, port)
    case Opened(first, second) =>
      SafeWrite(SafeWrite(s.(isOpen := true), Setup, REQUEST, first), Setup, RCU_ON, second)
    case PortDies =>
      s.(isOpen := false)
    case Teardown =>
      s.(queue := [], isOpen := false, epoch := s.epoch + 1,
         fates := s.fates + seq(|s.queue|, i => Dropped))
  }

  function Run(es: seq<Event>): Line {
    if es == [] then START else Step(Run(es[..|es| - 1]), es[|es| - 1])
  }

  // ------------------------------------------------------------ what every run keeps

  predicate IsUser(log: seq<Attempt>, i: int) {
    0 <= i < |log| && log[i].origin.User?
  }

  function IdAt(log: seq<Attempt>, i: int): nat
    requires IsUser(log, i)
  {
    log[i].origin.entry.id
  }

  predicate SoundAttempt(a: Attempt) {
    && (a.origin.User? ==> a.origin.entry.epoch == a.epoch && a.packet == a.origin.entry.packet)
    && (a.origin.Poll? ==> a.waiting == 0 && a.packet == REQUEST)
    && (a.outcome.HeldBack? ==> Expendable(a.packet))
  }

  predicate QueueSound(s: Line) {
    forall i :: 0 <= i < |s.queue| ==> s.queue[i].id == |s.fates| + i && s.queue[i].epoch == s.epoch
  }

  ghost predicate LogSound(s: Line) {
    && (forall i :: 0 <= i < |s.log| ==> SoundAttempt(s.log[i]))
    && (forall i, j :: i < j && IsUser(s.log, i) && IsUser(s.log, j) ==> IdAt(s.log, i) < IdAt(s.log, j))
    && (forall i :: IsUser(s.log, i) ==> IdAt(s.log, i) < |s.fates| && s.fates[IdAt(s.log, i)].Attempted?)
    && (forall k :: 0 <= k < |s.fates| && s.fates[k].Attempted? ==>
          exists i :: IsUser(s.log, i) && IdAt(s.log, i) == k)
  }

  lemma SafeWriteKeeps(s: Line, origin: Origin, p: Packet, port: Port)
    requires LogSound(s) && !origin.User? && (origin.Poll? ==> s.queue == [] && p == REQUEST)
    ensures LogSound(SafeWrite(s, origin, p, port))
  {
    var r := SafeWrite(s, origin, p, port);
    assert forall i :: IsUser(r.log, i) ==> IsUser(s.log, i) && IdAt(r.log, i) == IdAt(s.log, i);
    forall k | 0 <= k < |s.fates| && s.fates[k].Attempted?
      ensures exists i :: IsUser(r.log, i) && IdAt(r.log, i) == k
    {
      var i :| IsUser(s.log, i) && IdAt(s.log, i) == k;
      assert IsUser(r.log, i) && IdAt(r.log, i) == k;
    }
  }

  lemma CommandTurnKeeps(s: Line, port: Port)
    requires QueueSound(s) && LogSound(s) && s.queue != []
    ensures LogSound(Step(s, CommandTurn(port)))
  {
    var r := Step(s, CommandTurn(port));
    var n := |s.log|;
    forall k | 0 <= k < |r.fates| && r.fates[k].Attempted?
      ensures exists i :: IsUser(r.log, i) && IdAt(r.log, i) == k
    {
      if k == |s.fates| {
        assert IsUser(r.log, n) && IdAt(r.log, n) == k;
      } else {
        var i :| IsUser(s.log, i) && IdAt(s.log, i) == k;
        assert IsUser(r.log, i) && IdAt(r.log, i) == k;
      }
    }
    forall i, j | i < j && IsUser(r.log, i) && IsUser(r.log, j)
      ensures IdAt(r.log, i) < IdAt(r.log, j)
    {
      assert IsUser(s.log, i);
      assert j < n ==> IsUser(s.log, j);
    }
    forall i | IsUser(r.log, i)
      ensures IdAt(r.log, i) < |r.fates| && r.fates[IdAt(r.log, i)].Attempted?
    {
      assert i < n ==> IsUser(s.log, i);
    }
  }

  lemma TeardownKeeps(s: Line)
    requires LogSound(s)
    ensures LogSound(Step(s, Teardown))
  {
  }

  lemma StepKeepsQueue(s: Line, e: Event)
    requires QueueSound(s)
    ensures QueueSound(Step(s, e))
  {
    hide Command;
  }

  lemma StepKeepsLog(s: Line, e: Event)
    requires QueueSound(s) && LogSound(s)
    ensures LogSound(Step(s, e))
  {
    hide QueueSound, LogSound, Command;
    match e {
      case Send(command) => SendKeeps(s, command);
      case CommandTurn(port) =>
        if s.queue != [] {
          CommandTurnKeeps(s, port);
        }
      case PollTurn(port) =>
        if s.queue == [] {
          SafeWriteKeeps(s, Poll, REQUEST, port);
        }
      case TickTurn(packet, port) => SafeWriteKeeps(s, Tick, packet, port);
      case Opened(first, second) =>
        var live := s.(isOpen := true);
        OpenKeeps(s, true);
        SafeWriteKeeps(live, Setup, REQUEST, first);
        SafeWriteKeeps(SafeWrite(live, Setup, REQUEST, first), Setup, RCU_ON, second);
      case PortDies => OpenKeeps(s, false);
      case Teardown => TeardownKeeps(s);
    }
  }

  lemma {:induction false} RunSound(es: seq<Event>)
    ensures QueueSound(Run(es)) && LogSound(Run(es))
  {
    if es != [] {
      hide QueueSound, LogSound, Step;
      var before := Run(es[..|es| - 1]);
      RunSound(es[..|es| - 1]);
      StepKeepsQueue(before, es[|es| - 1]);
      StepKeepsLog(before, es[|es| - 1]);
    } else {
      assert Run([]) == START;
    }
  }

  lemma OpenKeeps(s: Line, isOpen: bool)
    requires LogSound(s)
    ensures LogSound(s.(isOpen := isOpen))
  {
  }

  lemma SendKeeps(s: Line, command: string)
    requires LogSound(s)
    ensures LogSound(Step(s, Send(command)))
  {
  }

  /** Attempts to write user commands are made in the order the commands were accepted, and
      none of a command queued before a teardown is made after it. */
  lemma CommandsKeepOrder(es: seq<Event>, i: nat, j: nat)
    requires i < j && IsUser(Run(es).log, i) && IsUser(Run(es).log, j)
    ensures IdAt(Run(es).log, i) < IdAt(Run(es).log, j)
    ensures Run(es).log[j].origin.entry.epoch == Run(es).log[j].epoch
  {
    RunSound(es);
  }

  /** A user attempt writes the command's own packet; back-pressure drops only RCU switches
      and status requests; a poll goes out only when no command waits. */
  lemma AttemptsAreSound(es: seq<Event>, i: nat)
    requires i < |Run(es).log|
    ensures SoundAttempt(Run(es).log[i])
  {
    RunSound(es);
  }

  lemma SameAttempt(s: Line, i: int, j: int)
    requires LogSound(s) && IsUser(s.log, i) && IsUser(s.log, j) && IdAt(s.log, i) == IdAt(s.log, j)
    ensures i == j
  {
  }

  /** Every accepted command is still queued, or was dropped by a teardown and never tried, or
      was tried exactly once. */
  lemma EachCommandOnce(es: seq<Event>, id: nat)
    requires id < |Run(es).fates| + |Run(es).queue|
    ensures var s := Run(es);
            if id >= |s.fates| then
              s.queue[id - |s.fates|].id == id && forall i :: IsUser(s.log, i) ==> IdAt(s.log, i) != id
            else if s.fates[id].Dropped? then
              forall i :: IsUser(s.log, i) ==> IdAt(s.log, i) != id
            else
              exists i :: IsUser(s.log, i) && IdAt(s.log, i) == id &&
                          forall j :: IsUser(s.log, j) && IdAt(s.log, j) == id ==> j == i
  {
    RunSound(es);
    var s := Run(es);
    if id < |s.fates| && s.fates[id].Attempted? {
      var i :| IsUser(s.log, i) && IdAt(s.log, i) == id;
      forall j | IsUser(s.log, j) && IdAt(s.log, j) == id
        ensures j == i
      {
        SameAttempt(s, i, j);
      }
    }
  }

  // ------------------------------------------------------------ what the packets are

  /** The front-panel keys, by their codes from 1 on. */
  const KEYS := ["input", "band_dn", "band_up", "antenna", "l_minus", "l_plus", "c_minus", "c_plus", "tune",
                 "power_off", "power_level", "display", "oper", "cat", "left", "right", "set"]

  /** A packet is three sync bytes, the length of its data, the data and its checksum, the sum of
      the data; each command is one byte of data. */
  predicate WellFormed(p: Packet, code: int) {
    |p| == 6 && p[0] == p[1] == p[2] == 0x55 && p[3] == 1 && p[4] == code && p[5] == p[4] % 256
  }

  lemma KeysAreNumbered(i: nat)
    requires i < |KEYS|
    ensures Command(KEYS[i]).Some? && WellFormed(Command(KEYS[i]).value, i + 1)
  {
  }

  lemma SwitchesAreNumbered()
    ensures Command("rcu_on").Some? && WellFormed(Command("rcu_on").value, 128)
    ensures Command("rcu_off").Some? && WellFormed(Command("rcu_off").value, 129)
    ensures Command("backlight_on").Some? && WellFormed(Command("backlight_on").value, 130)
    ensures Command("backlight_off").Some? && WellFormed(Command("backlight_off").value, 131)
    ensures Command("gain") == Command("power_level") && WellFormed(REQUEST, 144)
  {
  }

  /** No other command name is known. */
  lemma NoOtherCommand(name: string)
    requires name !in KEYS && name !in ["rcu_on", "rcu_off", "backlight_on", "backlight_off", "gain"]
    ensures Command(name) == None
  {
  }

  lemma ExpendableMeans(p: Packet)
    ensures Expendable(p) <==> WellFormed(p, 128) || WellFormed(p, 129) || WellFormed(p, 144)
  {
    forall c: SerialFraming.byte | WellFormed(p, c)
      ensures p == Keycode(c)
    {
    }
  }

  /** Under back-pressure nothing is held back but the two RCU switches and the status request;
      every other packet that finds the port open is at least tried. */
  lemma OnlyTicksAreHeldBack(es: seq<Event>, i: nat)
    requires i < |Run(es).log| && Run(es).log[i].outcome.HeldBack?
    ensures var p := Run(es).log[i].packet; WellFormed(p, 128) || WellFormed(p, 129) || WellFormed(p, 144)
  {
    AttemptsAreSound(es, i);
    ExpendableMeans(Run(es).log[i].packet);
  }

  // ------------------------------------------------------------ the object

  function Packets(es: seq<Entry>): (ps: seq<Packet>)
    ensures |ps| == |es|
    ensures forall i :: 0 <= i < |es| ==> ps[i] == es[i].packet
  {
    seq(|es|, i requires 0 <= i < |es| => es[i].packet)
  }

  /** The packets that reached the wire. */
  function Wire(log: seq<Attempt>): seq<Packet> {
    if log == [] then []
    else
      var last := log[|log| - 1];
      Wire(log[..|log| - 1]) + if last.outcome.Written? then [last.packet] else []
  }

  class CommandPort {
    var queue: seq<Packet>
    var isOpen: bool
    var wire: seq<Packet>
    ghost var events: seq<Event>

    ghost predicate Valid()
      reads this
    {
      && queue == Packets(Run(events).queue)
      && isOpen == Run(events).isOpen
      && wire == Wire(Run(events).log)
    }

    constructor ()
      ensures Valid() && events == []
    {
      queue, isOpen, wire, events := [], false, [], [];
    }

    ghost method Note(e: Event)
      modifies this`events
      ensures events == old(events) + [e] && Run(events) == Step(Run(old(events)), e)
    {
      FrontOfSnoc(events, e);
      events := events + [e];
    }

    method SafeWrite(p: Packet, port: Port)
      modifies this`wire
      ensures wire == old(wire) +
                      if isOpen && !(Expendable(p) && port.unsent > MAX_WAITING) && !port.raises
                      then [p] else []
    {
      if !isOpen {
        return;
      }
      var isRcuTick := p == RCU_OFF || p == RCU_ON || p == REQUEST;
      if isRcuTick && port.unsent > MAX_WAITING {
        return;
      }
      if !port.raises {
        wire := wire + [p];
      }
    }

    method SendCommand(command: string)
      requires Valid()
      modifies this`queue, this`events
      ensures Valid() && events == old(events) + [Send(command)]
    {
      hide Command;
      var packet := Command(command);
      if packet.Some? {
        queue := queue + [packet.value];
      }
      Note(Send(command));
    }

    /** The command task, woken with at least one command queued. */
    method CommandStep(port: Port)
      requires Valid() && queue != []
      modifies this
      ensures Valid() && events == old(events) + [CommandTurn(port)]
    {
      var cmd := queue[0];
      queue := queue[1..];
      SafeWrite(cmd, port);
      WireGrows(Run(events), CommandTurn(port));
      Note(CommandTurn(port));
    }

    method PollStep(port: Port)
      requires Valid()
      modifies this
      ensures Valid() && events == old(events) + [PollTurn(port)]
    {
      if queue == [] {
        SafeWrite(REQUEST, port);
      }
      WireGrows(Run(events), PollTurn(port));
      Note(PollTurn(port));
    }

    method TickStep(on: bool, port: Port)
      requires Valid()
      modifies this
      ensures Valid() && events == old(events) + [TickTurn(if on then RCU_ON else RCU_OFF, port)]
    {
      var packet := if on then RCU_ON else RCU_OFF;
      SafeWrite(packet, port);
      WireGrows(Run(events), TickTurn(packet, port));
      Note(TickTurn(packet, port));
    }

    method OpenPort(first: Port, second: Port)
      requires Valid()
      modifies this
      ensures Valid() && events == old(events) + [Opened(first, second)]
    {
      isOpen := true;
      SafeWrite(REQUEST, first);
      SafeWrite(RCU_ON, second);
      WireGrows(Run(events), Opened(first, second));
      Note(Opened(first, second));
    }

    method TeardownPort()
      requires Valid()
      modifies this`queue, this`isOpen, this`events
      ensures Valid() && events == old(events) + [Teardown] && queue == []
    {
      isOpen := false;
      while queue != []
        invariant !isOpen && events == old(events) && wire == old(wire)
        decreases |queue|
      {
        queue := queue[1..];
      }
      Note(Teardown);
    }
  }

  lemma WireSnoc(log: seq<Attempt>, a: Attempt)
    ensures Wire(log + [a]) == Wire(log) + if a.outcome.Written? then [a.packet] else []
  {
    FrontOfSnoc(log, a);
  }

  function Goes(s: Line, p: Packet, port: Port): seq<Packet> {
    if WriteOutcome(s, p, port).Written? then [p] else []
  }

  lemma WireGrows(s: Line, e: Event)
    ensures Wire(Step(s, e).log) == Wire(s.log) +
              match e {
                case CommandTurn(port) => if s.queue == [] then [] else Goes(s, s.queue[0].packet, port)
                case PollTurn(port) => if s.queue != [] then [] else Goes(s, REQUEST, port)
                case TickTurn(packet, port) => Goes(s, packet, port)
                case Opened(first, second) =>
                  Goes(s.(isOpen := true), REQUEST, first) + Goes(s.(isOpen := true), RCU_ON, second)
                case _ => []
              }
  {
    match e
    case CommandTurn(port) =>
      if s.queue != [] {
        var p := s.queue[0].packet;
        var popped := s.(queue := s.queue[1..], fates := s.fates + [Attempted]);
        WireSnoc(s.log, Attempt(User(s.queue[0]), p, WriteOutcome(popped, p, port), |popped.queue|, s.epoch));
      }
    case PollTurn(port) =>
      WireSnoc(s.log, Attempt(Poll, REQUEST, WriteOutcome(s, REQUEST, port), |s.queue|, s.epoch));
    case TickTurn(packet, port) =>
      WireSnoc(s.log, Attempt(Tick, packet, WriteOutcome(s, packet, port), |s.queue|, s.epoch));
    case Opened(first, second) =>
      var live := s.(isOpen := true);
      var a := Attempt(Setup, REQUEST, WriteOutcome(live, REQUEST, first), |s.queue|, s.epoch);
      WireSnoc(s.log, a);
      WireSnoc(s.log + [a], Attempt(Setup, RCU_ON, WriteOutcome(live, RCU_ON, second), |s.queue|, s.epoch));
      SumAssociates(Wire(s.log), Goes(live, REQUEST, first), Goes(live, RCU_ON, second));
    case _ =>
  }

  /** A port takes a packet when it is open, writing does not raise and, for an RCU switch or the
      status request, at most 64 bytes are still unsent. */
  predicate Takes(isOpen: bool, p: Packet, port: Port) {
    isOpen && !port.raises && (port.unsent <= 64 || !(WellFormed(p, 128) || WellFormed(p, 129) || WellFormed(p, 144)))
  }

  lemma TakesMeans(s: Line, p: Packet, port: Port)
    ensures Goes(s, p, port) == if Takes(s.isOpen, p, port) then [p] else []
  {
    ExpendableMeans(p);
  }

  lemma WireTurn(s: Line, e: Event)
    ensures Wire(Step(s, e).log) == Wire(s.log) +
            match e {
              case CommandTurn(port) =>
                if s.queue != [] && Takes(s.isOpen, s.queue[0].packet, port) then [s.queue[0].packet] else []
              case PollTurn(port) => if s.queue == [] && Takes(s.isOpen, REQUEST, port) then [REQUEST] else []
              case TickTurn(packet, port) => if Takes(s.isOpen, packet, port) then [packet] else []
              case Opened(first, second) =>
                (if Takes(true, REQUEST, first) then [REQUEST] else [])
                + (if Takes(true, RCU_ON, second) then [RCU_ON] else [])
              case _ => []
            }
  {
    hide Step, Wire, Goes, Takes;
    WireGrows(s, e);
    match e
    case CommandTurn(port) =>
      if s.queue != [] {
        TakesMeans(s, s.queue[0].packet, port);
      }
    case PollTurn(port) => TakesMeans(s, REQUEST, port);
    case TickTurn(packet, port) => TakesMeans(s, packet, port);
    case Opened(first, second) =>
      TakesMeans(s.(isOpen := true), REQUEST, first);
      TakesMeans(s.(isOpen := true), RCU_ON, second);
    case _ =>
  }

  lemma QueueTurn(s: Line, e: Event)
    ensures Packets(Step(s, e).queue) ==
            match e {
              case Send(name) => Packets(s.queue) + if Command(name).Some? then [Command(name).value] else []
              case CommandTurn(_) => if s.queue == [] then [] else Packets(s.queue)[1..]
              case Teardown => []
              case _ => Packets(s.queue)
            }
  {
    hide Command, WriteOutcome;
  }

  /** What reaches the wire, turn by turn: the command at the head of the queue, a status request
      only when no command waits, a tick's switch, and at opening the request and the RCU switch,
      each if the port takes it; and nothing else ever. */
  lemma TurnsReachTheWire(es: seq<Event>, e: Event)
    ensures var s := Run(es);
            Wire(Run(es + [e]).log) == Wire(s.log) +
            match e {
              case CommandTurn(port) =>
                if s.queue != [] && Takes(s.isOpen, s.queue[0].packet, port) then [s.queue[0].packet] else []
              case PollTurn(port) => if s.queue == [] && Takes(s.isOpen, REQUEST, port) then [REQUEST] else []
              case TickTurn(packet, port) => if Takes(s.isOpen, packet, port) then [packet] else []
              case Opened(first, second) =>
                (if Takes(true, REQUEST, first) then [REQUEST] else [])
                + (if Takes(true, RCU_ON, second) then [RCU_ON] else [])
              case _ => []
            }
  {
    hide Step, Wire, Takes;
    FrontOfSnoc(es, e);
    WireTurn(Run(es), e);
  }

  /** What waits, turn by turn: a known command joins at the end, the command task takes the
      first, a teardown empties the queue, and nothing else touches it. */
  lemma TurnsMoveTheQueue(es: seq<Event>, e: Event)
    ensures Packets(Run(es + [e]).queue) ==
            match e {
              case Send(name) => Packets(Run(es).queue) + if Command(name).Some? then [Command(name).value] else []
              case CommandTurn(_) => if Run(es).queue == [] then [] else Packets(Run(es).queue)[1..]
              case Teardown => []
              case _ => Packets(Run(es).queue)
            }
  {
    hide Step, Command;
    FrontOfSnoc(es, e);
    QueueTurn(Run(es), e);
  }
}
