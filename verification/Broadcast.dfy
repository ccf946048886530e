/**
 What every client has been told: deduplicated state broadcasts, late joiners, dead clients and
 live changes of the temperature unit (spe/websocket_handler.py, spe/serial_handler.py).
 */
module Broadcast {
  import opened Sequences
  import opened Text
  import opened StatusLine

  type Client = int

  /** `clients` are those registered, `alive` those whose socket still takes messages, and
      `told` the last state text each took. */
  datatype Hub = Hub(
    clients: set<Client>, alive: set<Client>, told: map<Client, string>,
    state: AmplifierState, unit: char, lastJson: string, lastTime: real)

  /** `now` is the wall clock, which may go backwards. `Raw` is any message that is not a
      state: a presence heartbeat, a tune phase, a configuration. */
  datatype Event =
    | Opens(c: Client, reachable: bool) | Closes(c: Client) | Dies(c: Client)
    | Frame(decoded: AmplifierState, now: real) | SetUnit(requested: string, now: real) | Raw

  /** The wire text of a state. Nothing below depends on it but that it is never empty. */
  type Encoder = AmplifierState -> string

  ghost predicate NeverEmpty(json: Encoder) {
    forall s :: json(s) != ""
  }

  function Start(s: AmplifierState): Hub {
    Hub({}, {}, map[], s, s.temperatureUnit, "", 0.0)
  }

  function Told(told: map<Client, string>, who: set<Client>, text: string): map<Client, string> {
    map c | c in told.Keys + who :: if c in who then text else told[c]
  }

  /** Everyone registered who can still be reached is sent a text; the others are dropped. */
  function TellAll(h: Hub, text: string): Hub {
    h.(clients := h.clients * h.alive, told := Told(h.told, h.clients * h.alive, text))
  }

  lemma ToldOneMore(told: map<Client, string>, who: set<Client>, text: string, c: Client)
    ensures Told(told, who, text)[c := text] == Told(told, who + {c}, text)
  {
  }

  lemma ToldNobody(told: map<Client, string>, text: string)
    ensures Told(told, {}, text) == told
  {
  }

  lemma OnlyEmptyIsEmpty(s: set<Client>)
    ensures (forall c :: c !in s) ==> s == {}
  {
    var none: set<Client> := {};
    if forall c :: c !in s {
      assert forall c :: c in s <==> c in none;
    }
  }

  predicate Suppressed(h: Hub, text: string, now: real, heartbeat: real) {
    text == h.lastJson && now - h.lastTime < heartbeat
  }

  function BroadcastState(h: Hub, json: Encoder, now: real, heartbeat: real): Hub {
    var text := json(h.state);
    if Suppressed(h, text, now, heartbeat) then h
    else TellAll(h, text).(lastJson := text, lastTime := now)
  }

  function NormalUnit(requested: string): char {
    if requested != "" && (requested[0] == 'F' || requested[0] == 'f') then 'F' else 'C'
  }

  function Step(h: Hub, e: Event, json: Encoder, heartbeat: real): Hub {
    match e
    case Opens(c, reachable) =>
      if reachable then
        h.(clients := h.clients + {c}, alive := h.alive + {c}, told := h.told[c := json(h.state)])
      else h.(clients := h.clients + {c}, alive := h.alive - {c})
    case Closes(c) => h.(clients := h.clients - {c}, alive := h.alive - {c})
    case Dies(c) => h.(alive := h.alive - {c})
    case Frame(decoded, now) =>
      BroadcastState(h.(state := decoded.(temperatureUnit := h.unit)), json, now, heartbeat)
    case SetUnit(requested, now) =>
      var unit := NormalUnit(requested);
      if unit == h.unit then h
      else BroadcastState(h.(unit := unit, state := h.state.(temperatureUnit := unit)), json, now, heartbeat)
    case Raw => h.(clients := h.clients * h.alive)
  }

  function Run(s: AmplifierState, es: seq<Event>, json: Encoder, heartbeat: real): Hub {
    if es == [] then Start(s)
    else Step(Run(s, es[..|es| - 1], json, heartbeat), es[|es| - 1], json, heartbeat)
  }

  /** No live client has been forgotten, and each last heard the state as it is. */
  predicate Coherent(h: Hub, json: Encoder) {
    && h.alive <= h.clients
    && (forall c :: c in h.alive ==> c in h.told && h.told[c] == json(h.state))
    && (h.lastJson == "" || h.lastJson == json(h.state))
    && h.state.temperatureUnit == h.unit
  }

  /** Changing the state and broadcasting keeps everyone up to date, also when the broadcast
      is suppressed. */
  lemma BroadcastCoherent(h: Hub, s: AmplifierState, unit: char, json: Encoder, now: real, heartbeat: real)
    requires Coherent(h, json) && s.temperatureUnit == unit && NeverEmpty(json)
    ensures Coherent(BroadcastState(h.(state := s, unit := unit), json, now, heartbeat), json)
  {
    assert json(s) != "";
  }

  lemma StepCoherent(h: Hub, e: Event, json: Encoder, heartbeat: real)
    requires Coherent(h, json) && NeverEmpty(json)
    ensures Coherent(Step(h, e, json, heartbeat), json)
  {
    match e
    case Frame(decoded, now) =>
      BroadcastCoherent(h, decoded.(temperatureUnit := h.unit), h.unit, json, now, heartbeat);
    case SetUnit(requested, now) =>
      var unit := NormalUnit(requested);
      BroadcastCoherent(h, h.state.(temperatureUnit := unit), unit, json, now, heartbeat);
    case _ =>
  }

  lemma {:induction false} AlwaysCoherent(s: AmplifierState, es: seq<Event>, json: Encoder, heartbeat: real)
    requires NeverEmpty(json)
    ensures Coherent(Run(s, es, json, heartbeat), json)
  {
    if es != [] {
      var front := es[..|es| - 1];
      AlwaysCoherent(s, front, json, heartbeat);
      StepCoherent(Run(s, front, json, heartbeat), es[|es| - 1], json, heartbeat);
    }
  }

  // ------------------------------------------------------------ which state is current

  /** Looking back: what the last frame said, or the state at the start. */
  function LastFrame(s: AmplifierState, es: seq<Event>): AmplifierState {
    if es == [] then s
    else if es[|es| - 1].Frame? then es[|es| - 1].decoded
    else LastFrame(s, es[..|es| - 1])
  }

  /** Looking back: the unit last asked for, or the unit at the start. */
  function LastUnit(unit: char, es: seq<Event>): char {
    if es == [] then unit
    else if es[|es| - 1].SetUnit? then
      var asked := es[|es| - 1].requested;
      if asked != "" && asked[0] in "Ff" then 'F' else 'C'
    else LastUnit(unit, es[..|es| - 1])
  }

  /** Looking back: the last thing that happened to a client is that it opened and was reached. */
  predicate Listening(es: seq<Event>, c: Client) {
    es != [] &&
    match es[|es| - 1]
    case Opens(d, reachable) => if d == c then reachable else Listening(es[..|es| - 1], c)
    case Closes(d) => d != c && Listening(es[..|es| - 1], c)
    case Dies(d) => d != c && Listening(es[..|es| - 1], c)
    case _ => Listening(es[..|es| - 1], c)
  }

  function CurrentState(s: AmplifierState, es: seq<Event>): AmplifierState {
    LastFrame(s, es).(temperatureUnit := LastUnit(s.temperatureUnit, es))
  }

  lemma StepCurrent(h: Hub, e: Event, json: Encoder, heartbeat: real)
    requires h.state.temperatureUnit == h.unit
    ensures var r := Step(h, e, json, heartbeat);
            && r.unit == (if !e.SetUnit? then h.unit
                          else if e.requested != "" && e.requested[0] in "Ff" then 'F' else 'C')
            && r.state == (if e.Frame? then e.decoded else h.state).(temperatureUnit := r.unit)
  {
  }

  lemma {:induction false} StateIsCurrent(s: AmplifierState, es: seq<Event>, json: Encoder, heartbeat: real)
    ensures var h := Run(s, es, json, heartbeat);
            h.state == CurrentState(s, es) && h.unit == LastUnit(s.temperatureUnit, es)
  {
    if es != [] {
      hide Step;
      var front := es[..|es| - 1];
      StateIsCurrent(s, front, json, heartbeat);
      StepCurrent(Run(s, front, json, heartbeat), es[|es| - 1], json, heartbeat);
    }
  }

  lemma {:induction false} AliveIsListening(s: AmplifierState, es: seq<Event>, json: Encoder, heartbeat: real, c: Client)
    ensures c in Run(s, es, json, heartbeat).alive <==> Listening(es, c)
  {
    if es != [] {
      AliveIsListening(s, es[..|es| - 1], json, heartbeat, c);
    }
  }

  /** After any events in any order, every client that opened, was reached and has neither closed
      nor died since is registered, and the last state text it took is that of the last frame
      with the unit last asked for. */
  lemma EveryViewIsCurrent(s: AmplifierState, es: seq<Event>, json: Encoder, heartbeat: real)
    requires NeverEmpty(json)
    ensures var h := Run(s, es, json, heartbeat);
            && h.state == CurrentState(s, es)
            && forall c :: Listening(es, c) ==>
                 c in h.clients && c in h.told && h.told[c] == json(CurrentState(s, es))
  {
    hide Run, CurrentState;
    AlwaysCoherent(s, es, json, heartbeat);
    StateIsCurrent(s, es, json, heartbeat);
    forall c | Listening(es, c)
      ensures c in Run(s, es, json, heartbeat).alive
    {
      AliveIsListening(s, es, json, heartbeat, c);
    }
  }

  /** An identical frame reaches nobody within the heartbeat of the last broadcast, whoever it
      was that caused that one, and everybody after it. */
  lemma RepeatIsSuppressed(h: Hub, json: Encoder, sent: real, now: real, heartbeat: real, decoded: AmplifierState)
    ensures var once := Step(h, Frame(decoded, sent), json, heartbeat);
            var twice := Step(once, Frame(decoded, now), json, heartbeat);
            if now - once.lastTime < heartbeat then twice == once
            else twice.lastTime == now &&
                 forall c :: c in once.clients && c in once.alive ==> c in twice.told && twice.told[c] == json(once.state)
  {
  }

  // ------------------------------------------------------------ the handler

  class Handler {
    const json: Encoder
    const heartbeat: real
    var clients: set<Client>
    var alive: set<Client>
    var told: map<Client, string>
    var state: AmplifierState
    var unit: char
    var lastJson: string
    var lastTime: real

    ghost function Abs(): Hub
      reads this
    {
      Hub(clients, alive, told, state, unit, lastJson, lastTime)
    }

    ghost predicate Valid()
      reads this
    {
      NeverEmpty(json) && Coherent(Abs(), json)
    }

    constructor (s: AmplifierState, json: Encoder, heartbeat: real)
      requires NeverEmpty(json)
      ensures Valid() && Abs() == Start(s) && this.json == json && this.heartbeat == heartbeat
    {
      this.json, this.heartbeat := json, heartbeat;
      clients, alive, told := {}, {}, map[];
      state, unit, lastJson, lastTime := s, s.temperatureUnit, "", 0.0;
    }

    method Open(c: Client, reachable: bool)
      requires Valid()
      modifies this
      ensures Valid() && Abs() == Step(old(Abs()), Opens(c, reachable), json, heartbeat)
    {
      StepCoherent(Abs(), Opens(c, reachable), json, heartbeat);
      clients := clients + {c};
      if reachable {
        alive, told := alive + {c}, told[c := json(state)];
      } else {
        alive := alive - {c};
      }
    }

    method OnClose(c: Client)
      requires Valid()
      modifies this
      ensures Valid() && Abs() == Step(old(Abs()), Closes(c), json, heartbeat)
    {
      clients, alive := clients - {c}, alive - {c};
    }

    /** The loop of every broadcast: dead clients are collected on the way and dropped after. */
    method Tell(text: string)
      modifies `clients, `told
      ensures Abs() == TellAll(old(Abs()), text)
    {
      hide Told;
      var todo, heard, dead: set<Client> := clients, {}, {};
      ToldNobody(told, text);
      while todo != {}
        invariant todo + heard + dead == clients == old(clients)
        invariant heard <= alive && dead !! alive && heard !! todo
        invariant told == Told(old(told), heard, text)
        decreases todo
      {
        var c := Pick(todo);
        if c in alive {
          ToldOneMore(old(told), heard, text, c);
          told, heard := told[c := text], heard + {c};
        } else {
          dead := dead + {c};
        }
        todo := todo - {c};
      }
      clients := clients - dead;
      assert clients == old(clients) * alive == heard;
    }

    /** The iteration order of a set. */
    method Pick(s: set<Client>) returns (c: Client)
      requires s != {}
      ensures c in s
    {
      OnlyEmptyIsEmpty(s);
      c :| c in s;
    }

    method Broadcast(now: real)
      modifies `clients, `told, `lastJson, `lastTime
      ensures Abs() == BroadcastState(old(Abs()), json, now, heartbeat)
    {
      var text := json(state);
      if text == lastJson && now - lastTime < heartbeat {
        return;
      }
      lastJson, lastTime := text, now;
      Tell(text);
    }

    /** A decoded status line, stamped with the configured unit. */
    method OnFrame(decoded: AmplifierState, now: real)
      requires Valid()
      modifies this
      ensures Valid() && Abs() == Step(old(Abs()), Frame(decoded, now), json, heartbeat)
      ensures state == decoded.(temperatureUnit := old(unit)) && unit == old(unit)
      ensures forall c :: c in alive ==> c in told && told[c] == json(state)
    {
      StepCoherent(Abs(), Frame(decoded, now), json, heartbeat);
      state := decoded.(temperatureUnit := unit);
      Broadcast(now);
    }

    method SetTemperatureUnit(requested: string, now: real) returns (applied: char)
      requires Valid()
      modifies this
      ensures Valid() && Abs() == Step(old(Abs()), SetUnit(requested, now), json, heartbeat)
      ensures applied == unit == if requested != "" && requested[0] in "Ff" then 'F' else 'C'
      ensures state == old(state).(temperatureUnit := unit)
    {
      StepCoherent(Abs(), SetUnit(requested, now), json, heartbeat);
      applied := NormalUnit(requested);
      if applied != unit {
        unit := applied;
        state := state.(temperatureUnit := applied);
        Broadcast(now);
      }
    }
  }
}
