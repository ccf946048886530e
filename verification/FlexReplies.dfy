/**
 Matching replies to commands on a Flex radio's control connection (spe/flex.py): the table
 of pending futures under any interleaving of sends, replies, timeouts, lost connections and
 closes.
 */
module FlexReplies {
  import opened Sequences
  import opened Text

  // ------------------------------------------------------------ the reply line

  datatype Reply = Reply(seqNo: int, status: int, message: string)

  function HexDigit(c: char): Option<nat> {
    if '0' <= c <= '9' then Some(c as int - '0' as int)
    else if 'a' <= c <= 'f' then Some(c as int - 'a' as int + 10)
    else if 'A' <= c <= 'F' then Some(c as int - 'A' as int + 10)
    else None
  }

  function HexValue(s: string): Option<nat> {
    if s == "" then Some(0)
    else
      var high, low := HexValue(s[..|s| - 1]), HexDigit(s[|s| - 1]);
      if high.None? || low.None? then None else Some(16 * high.value + low.value)
  }

  /** `int(text, 16)`: an optional sign and 0x, and digits that underscores may group. */
  function ParseHex(text: string): Option<int> {
    var t := Strip(text);
    var body := if t != "" && (t[0] == '+' || t[0] == '-') then t[1..] else t;
    var digits := if |body| >= 2 && body[0] == '0' && (body[1] == 'x' || body[1] == 'X')
                  then (if |body| >= 3 && body[2] == '_' then body[3..] else body[2..]) else body;
    var groups := Split(digits, '_');
    if "" in groups then None
    else match HexValue(Concat(groups))
      case None => None
      case Some(n) =>
        var m: int := n;
        Some(if t != "" && t[0] == '-' then -m else m)
  }

  /** `R<seq>|<hex status>|<message>`; the message may itself contain bars. */
  function ParseReply(line: string): Option<Reply> {
    if line == "" || line[0] != 'R' then None
    else
      var (number, rest) := Cut(line[1..], '|');
      if rest.None? then None
      else
        var (code, message) := Cut(rest.value, '|');
        if ParseInt(number).None? || ParseHex(code).None? then None
        else Some(Reply(ParseInt(number).value, ParseHex(code).value,
                        if message.Some? then message.value else ""))
  }

  function HexChar(d: nat): (c: char)
    requires d < 16
    ensures HexDigit(c) == Some(d) && c != '_' && c != 'x' && c != 'X' && c != '|' && !IsSpace(c) && c != '+' && c != '-'
  {
    if d < 10 then ('0' as int + d) as char else ('A' as int + d - 10) as char
  }

  function HexText(n: nat): (s: string)
    ensures s != ""
  {
    if n < 16 then [HexChar(n)] else HexText(n / 16) + [HexChar(n % 16)]
  }

  predicate HexLike(s: string) {
    forall i :: 0 <= i < |s| ==> s[i] != '_' && s[i] != 'x' && s[i] != 'X' && s[i] != '|' && !IsSpace(s[i])
                                 && s[i] != '+' && s[i] != '-'
  }

  lemma {:induction false} HexTextBack(n: nat)
    ensures HexValue(HexText(n)) == Some(n) && HexLike(HexText(n))
  {
    if n < 16 {
      assert HexText(n)[..0] == "";
      assert HexValue("") == Some(0);
    } else {
      HexTextBack(n / 16);
      var s := HexText(n);
      assert s[..|s| - 1] == HexText(n / 16) && s[|s| - 1] == HexChar(n % 16);
    }
  }

  lemma ParseHexBack(n: nat)
    ensures ParseHex(HexText(n)) == Some(n) && Free(HexText(n), '|')
  {
    HexTextBack(n);
    var s := HexText(n);
    StripTight(s);
    SplitFree(s, '_');
    assert Concat([s]) == s + Concat([]) == s;
  }

  function ReplyLine(n: nat, status: nat, message: string): string {
    "R" + (NatText(n) + ['|'] + (HexText(status) + ['|'] + message))
  }

  lemma NumberIsBarFree(n: nat)
    ensures Free(NatText(n), '|')
  {
    var s := NatText(n);
    forall i | 0 <= i < |s|
      ensures s[i] != '|'
    {
      assert IsDigit(s[i]);
    }
  }

  /** A reply line as the radio writes it reads back whole, bars in the message included. */
  lemma ReplyRoundTrip(n: nat, status: nat, message: string)
    ensures ParseReply(ReplyLine(n, status, message)) == Some(Reply(n, status, message))
  {
    hide ParseInt, ParseHex;
    var rest := HexText(status) + ['|'] + message;
    var line := ReplyLine(n, status, message);
    assert line[1..] == NatText(n) + ['|'] + rest;
    NumberIsBarFree(n);
    CutFirst(NatText(n), rest, '|');
    ParseHexBack(status);
    CutFirst(HexText(status), message, '|');
    IntRoundTrip(n);
    assert IntText(n) == NatText(n);
  }

  // ------------------------------------------------------------ the table of futures

  datatype Future = Unset | Answered(status: int, message: string) | Lost | Cancelled

  datatype Outcome = Message(text: string) | Rejected(status: int, text: string) | TimedOut | NoConnection

  /** Where a `send` is: in `drain`, in `wait_for`, with its timeout fired, or finished. */
  datatype Stage = Draining | Waiting | Expiring | Done(outcome: Outcome)

  datatype Call = Call(stage: Stage, future: Future)

  /** `calls[n]` is the send that drew sequence number n; `refused` counts those that found no
      connection and drew none. */
  datatype State = State(connected: bool, lastSeq: nat, calls: map<int, Call>, pending: set<int>, refused: nat)

  datatype Event =
    | Connects | Send | Drained(n: int, ok: bool) | Line(reply: Reply)
    | Expires(n: int) | Resumes(n: int) | LoopEnds | Closes

  const START := State(false, 0, map[], {}, 0)

  function OutcomeOf(f: Future): Outcome {
    match f
    case Answered(status, message) => if status == 0 then Message(message) else Rejected(status, message)
    case Cancelled => TimedOut
    case _ => NoConnection
  }

  function Failed(c: Call): Call {
    if c.future.Unset? then c.(future := Lost) else c
  }

  /** Every waiter still in the table is told the connection is gone, and the table emptied. */
  function FailAll(s: State): State {
    s.(calls := map n | n in s.calls :: if n in s.pending then Failed(s.calls[n]) else s.calls[n], pending := {})
  }

  function SetCall(s: State, n: int, c: Call): State {
    s.(calls := s.calls[n := c])
  }

  function Popped(s: State, n: int): State {
    s.(pending := s.pending - {n})
  }

  function Step(s: State, e: Event): State {
    match e
    case Connects => s.(connected := true)
    case Send =>
      if !s.connected then s.(refused := s.refused + 1)
      else
        var n := s.lastSeq + 1;
        s.(lastSeq := n, calls := s.calls[n := Call(Draining, Unset)], pending := s.pending + {n})
    case Drained(n, ok) =>
      if n !in s.calls || !s.calls[n].stage.Draining? then s
      else if ok then SetCall(s, n, s.calls[n].(stage := Waiting))
      else SetCall(Popped(s, n), n, s.calls[n].(stage := Done(NoConnection)))
    case Line(r) =>
      if r.seqNo !in s.pending || r.seqNo !in s.calls then Popped(s, r.seqNo)
      else
        var c := s.calls[r.seqNo];
        SetCall(Popped(s, r.seqNo), r.seqNo,
                if c.future.Unset? then c.(future := Answered(r.status, r.message)) else c)
    case Expires(n) =>
      if n !in s.calls || !s.calls[n].stage.Waiting? then s
      else
        SetCall(s, n, Call(Expiring, if s.calls[n].future.Unset? then Cancelled else s.calls[n].future))
    case Resumes(n) =>
      if n !in s.calls then s
      else if s.calls[n].stage.Expiring? then SetCall(Popped(s, n), n, s.calls[n].(stage := Done(TimedOut)))
      else if s.calls[n].stage.Waiting? && !s.calls[n].future.Unset? then
        SetCall(s, n, s.calls[n].(stage := Done(OutcomeOf(s.calls[n].future))))
      else s
    case LoopEnds => FailAll(s)
    case Closes => FailAll(s).(connected := false)
  }

  function Run(es: seq<Event>): State {
    if es == [] then START else Step(Run(es[..|es| - 1]), es[|es| - 1])
  }

  ghost predicate Sound(s: State) {
    && (forall n :: n in s.calls <==> 1 <= n <= s.lastSeq)
    && (forall n :: n in s.pending ==> n in s.calls && CallPending(s.calls[n]))
    && (forall n :: n in s.calls ==> CallSound(s.calls[n], n in s.pending))
  }

  /** A call in the table has not finished and has no answer yet. */
  predicate CallPending(c: Call) {
    !c.stage.Done? && (c.future.Unset? || c.future.Cancelled?)
  }

  /** No waiter is lost: an unfinished call with nothing to wake it is in the table. */
  predicate CallSound(c: Call, pending: bool) {
    && (!c.stage.Done? && c.future.Unset? ==> pending)
    && (c.stage.Expiring? ==> !c.future.Unset?)
    && (c.stage.Draining? || c.stage.Waiting? ==> !c.future.Cancelled?)
  }

  lemma SoundStep(s: State, e: Event)
    requires Sound(s)
    ensures Sound(Step(s, e))
  {
  }

  lemma {:induction false} AlwaysSound(es: seq<Event>)
    ensures Sound(Run(es))
  {
    if es != [] {
      AlwaysSound(es[..|es| - 1]);
      SoundStep(Run(es[..|es| - 1]), es[|es| - 1]);
    }
  }

  // ------------------------------------------------------------ each send finishes once

  predicate Finished(s: State, n: int, o: Outcome) {
    n in s.calls && s.calls[n].stage == Done(o)
  }

  lemma FinishedStays(s: State, e: Event, n: int, o: Outcome)
    requires Sound(s) && Finished(s, n, o)
    ensures Finished(Step(s, e), n, o)
  {
  }

  /** A send that has finished stays finished, with the same outcome, whatever happens next. */
  lemma {:induction false} FinishesOnce(es: seq<Event>, more: seq<Event>, n: int, o: Outcome)
    requires Finished(Run(es), n, o)
    ensures Finished(Run(es + more), n, o)
    decreases |more|
  {
    if more == [] {
      SumNothing(es);
    } else {
      var front, e := more[..|more| - 1], more[|more| - 1];
      FinishesOnce(es, front, n, o);
      AlwaysSound(es + front);
      assert (es + more)[..|es + more| - 1] == es + front;
      FinishedStays(Run(es + front), e, n, o);
    }
  }

  /** What can settle a send's future: a reply bearing its number, the loss of the connection,
      or its own timeout, which runs only once its line is written. */
  predicate Settles(s: State, e: Event, n: int) {
    (e.Line? && e.reply.seqNo == n) || e.LoopEnds? || e.Closes? ||
    (e == Expires(n) && n in s.calls && s.calls[n].stage.Waiting?)
  }

  /** The first of these after n was drawn. */
  function FirstCause(es: seq<Event>, n: int): Option<Event> {
    if es == [] then None
    else
      var front, e := es[..|es| - 1], es[|es| - 1];
      if FirstCause(front, n).Some? then FirstCause(front, n)
      else if n in Run(front).calls && Settles(Run(front), e, n) then Some(e)
      else None
  }

  function FutureOf(cause: Option<Event>): Future {
    match cause
    case Some(Line(r)) => Answered(r.status, r.message)
    case Some(Expires(_)) => Cancelled
    case Some(_) => Lost
    case None => Unset
  }

  /** A send's future is what came first; its outcome is that, or its line could not be written,
      or its timeout fired before it resumed. */
  predicate Explained(c: Call, cause: Option<Event>, unwritten: bool, expired: bool) {
    && (!c.stage.Done? ==> c.future == FutureOf(cause))
    && (c.stage.Expiring? ==> expired)
    && (c.stage.Done? ==>
          || (unwritten && c.stage.outcome == NoConnection)
          || (expired && c.stage.outcome == TimedOut)
          || (cause.Some? && !cause.value.Expires? && c.stage.outcome == OutcomeOf(FutureOf(cause))))
  }

  function NextCause(s: State, e: Event, n: int, cause: Option<Event>): Option<Event> {
    if cause.None? && Settles(s, e, n) then Some(e) else cause
  }

  lemma ExplainedStep(s: State, e: Event, n: int, cause: Option<Event>, unwritten: bool, expired: bool)
    requires Sound(s) && n in s.calls && Explained(s.calls[n], cause, unwritten, expired)
    ensures n in Step(s, e).calls
    ensures Explained(Step(s, e).calls[n], NextCause(s, e, n, cause),
                      unwritten || e == Drained(n, false), expired || e == Expires(n))
  {
  }

  lemma DrawsOne(s: State, e: Event, n: int)
    requires Sound(s) && n !in s.calls && n in Step(s, e).calls
    ensures e.Send? && Step(s, e).calls[n] == Call(Draining, Unset)
  {
  }

  lemma CallsStay(s: State, e: Event, n: int)
    requires Sound(s) && n in s.calls
    ensures n in Step(s, e).calls
  {
  }

  lemma {:induction false} NoCauseBeforeSend(es: seq<Event>, n: int)
    requires n !in Run(es).calls
    ensures FirstCause(es, n) == None
  {
    if es != [] {
      hide Step, Sound;
      var front, e := es[..|es| - 1], es[|es| - 1];
      AlwaysSound(front);
      if n in Run(front).calls {
        CallsStay(Run(front), e, n);
      }
      NoCauseBeforeSend(front, n);
    }
  }

  lemma {:induction false} AlwaysExplained(es: seq<Event>, n: int)
    requires n in Run(es).calls
    ensures Explained(Run(es).calls[n], FirstCause(es, n), Drained(n, false) in es, Expires(n) in es)
  {
    hide Step, Sound, Explained, Settles;
    var front, e := es[..|es| - 1], es[|es| - 1];
    AlwaysSound(front);
    assert es == front + [e];
    if n in Run(front).calls {
      AlwaysExplained(front, n);
      ExplainedStep(Run(front), e, n, FirstCause(front, n), Drained(n, false) in front, Expires(n) in front);
    } else {
      NoCauseBeforeSend(front, n);
      DrawsOne(Run(front), e, n);
      NewCallExplained(Drained(n, false) in es, Expires(n) in es);
    }
  }

  lemma NewCallExplained(unwritten: bool, expired: bool)
    ensures Explained(Call(Draining, Unset), None, unwritten, expired)
  {
  }

  /** Every send that has finished did so for a cause of its own: its line could not be written,
      its timeout fired, or it has the outcome of whichever came first after it was drawn, the
      first reply to bear its number or the loss of the connection. Other numbers, replies from
      before it and second replies never reach it. */
  lemma OutcomeIsItsOwn(es: seq<Event>, n: int, o: Outcome)
    requires Finished(Run(es), n, o)
    ensures var cause := FirstCause(es, n);
            || (o == NoConnection && Drained(n, false) in es)
            || (o == TimedOut && Expires(n) in es)
            || (o == NoConnection && (cause == Some(LoopEnds) || cause == Some(Closes)))
            || (cause.Some? && cause.value.Line? && cause.value.reply.seqNo == n
                && (cause.value.reply.status == 0 ==> o == Message(cause.value.reply.message))
                && (cause.value.reply.status != 0 ==> o == Rejected(cause.value.reply.status, cause.value.reply.message)))
  {
    AlwaysExplained(es, n);
    CauseSettles(es, n);
  }

  lemma {:induction false} CauseSettles(es: seq<Event>, n: int)
    ensures var cause := FirstCause(es, n);
            cause.Some? ==> cause.value.LoopEnds? || cause.value.Closes? || cause.value == Expires(n) ||
                            (cause.value.Line? && cause.value.reply.seqNo == n)
  {
    if es != [] {
      CauseSettles(es[..|es| - 1], n);
    }
  }

  /** A reply in time, before the connection was lost and the send's timeout, is held for the
      send until it resumes; and a send that holds nothing has had no such event. */
  lemma ReplyIsHeld(es: seq<Event>, n: int)
    requires n in Run(es).calls && !Run(es).calls[n].stage.Done?
    ensures var f, cause := Run(es).calls[n].future, FirstCause(es, n);
            && (f.Unset? <==> cause.None?)
            && (f.Cancelled? <==> cause == Some(Expires(n)))
            && (f.Lost? <==> cause == Some(LoopEnds) || cause == Some(Closes))
            && (forall status, message ::
                  f == Answered(status, message) <==> cause == Some(Line(Reply(n, status, message))))
  {
    AlwaysExplained(es, n);
    CauseSettles(es, n);
  }

  /** A reply whose number is not in the table changes nothing; any reply changes at most the
      call whose number it bears. */
  lemma StrayReplyIgnored(es: seq<Event>, r: Reply)
    ensures r.seqNo !in Run(es).pending ==> Step(Run(es), Line(r)) == Run(es)
    ensures forall n :: n in Run(es).calls && n != r.seqNo ==> Step(Run(es), Line(r)).calls[n] == Run(es).calls[n]
  {
  }

  /** Any unfinished send can be brought to its end by its own steps alone: it can always
      drain or fail to, expire, and resume. */
  lemma CanAlwaysFinish(es: seq<Event>, n: int, ok: bool)
    requires n in Run(es).calls
    ensures Step(Step(Step(Run(es), Drained(n, ok)), Expires(n)), Resumes(n)).calls[n].stage.Done?
  {
    AlwaysSound(es);
  }

  /** After a close, or the end of the read loop, the table is empty and every unfinished send
      has what it needs to finish: nobody waits for a reply that cannot come. A send after a
      close is refused at once and draws no number. */
  lemma NobodyIsLeftWaiting(es: seq<Event>, e: Event)
    requires e.Closes? || e.LoopEnds?
    ensures var s := Step(Run(es), e);
            && s.pending == {}
            && (forall n :: n in s.calls && !s.calls[n].stage.Done? ==> !s.calls[n].future.Unset?)
            && (forall n :: n in s.calls && s.calls[n].stage.Waiting? ==>
                  Step(s, Resumes(n)).calls[n].stage.Done?)
            && (e.Closes? ==> Step(s, Send) == s.(refused := s.refused + 1))
  {
    AlwaysSound(es);
    SoundStep(Run(es), e);
  }

  // ------------------------------------------------------------ the connection object

  class FlexConnection {
    var connected: bool
    var lastSeq: nat
    var calls: map<int, Call>
    var pending: set<int>
    var refused: nat

    ghost function Abs(): State
      reads this
    {
      State(connected, lastSeq, calls, pending, refused)
    }

    constructor ()
      ensures Abs() == START
    {
      connected, lastSeq, calls, pending, refused := false, 0, map[], {}, 0;
    }

    /** `send` up to its first await. */
    method StartSend() returns (n: Option<nat>)
      requires Sound(Abs())
      modifies this
      ensures Abs() == Step(old(Abs()), Send) && Sound(Abs())
      ensures n == if old(connected) then Some(old(lastSeq) + 1) else None
    {
      SoundStep(Abs(), Send);
      if !connected {
        refused := refused + 1;
        return None;
      }
      lastSeq := lastSeq + 1;
      calls, pending := calls[lastSeq := Call(Draining, Unset)], pending + {lastSeq};
      return Some(lastSeq);
    }

    method FinishDrain(n: int, ok: bool)
      requires Sound(Abs()) && n in calls && calls[n].stage.Draining?
      modifies this
      ensures Abs() == Step(old(Abs()), Drained(n, ok)) && Sound(Abs())
    {
      SoundStep(Abs(), Drained(n, ok));
      if ok {
        calls := calls[n := calls[n].(stage := Waiting)];
      } else {
        pending := pending - {n};
        calls := calls[n := calls[n].(stage := Done(NoConnection))];
      }
    }

    /** The last part of `send`, once its future is set or its timeout has fired. */
    method FinishSend(n: int) returns (o: Outcome)
      requires Sound(Abs()) && n in calls
      requires calls[n].stage.Expiring? || (calls[n].stage.Waiting? && !calls[n].future.Unset?)
      modifies this
      ensures Abs() == Step(old(Abs()), Resumes(n)) && Sound(Abs()) && Finished(Abs(), n, o)
      ensures old(calls[n].stage.Expiring?) ==> o == TimedOut
      ensures old(calls[n].stage.Waiting? && calls[n].future.Lost?) ==> o == NoConnection
      ensures old(calls[n].stage.Waiting? && calls[n].future.Answered?) ==>
                if old(calls[n].future).status == 0 then o == Message(old(calls[n].future).message)
                else o == Rejected(old(calls[n].future).status, old(calls[n].future).message)
    {
      SoundStep(Abs(), Resumes(n));
      if calls[n].stage.Expiring? {
        pending := pending - {n};
        o := TimedOut;
      } else {
        o := OutcomeOf(calls[n].future);
      }
      calls := calls[n := calls[n].(stage := Done(o))];
    }

    /** A line from the radio: a reply finds its waiter or nobody; other lines touch no waiter. */
    method DispatchLine(line: string)
      requires Sound(Abs())
      modifies this
      ensures Abs() == (if ParseReply(line).Some? then Step(old(Abs()), Line(ParseReply(line).value))
                        else old(Abs()))
      ensures Sound(Abs())
    {
      hide ParseReply;
      var parsed := ParseReply(line);
      if parsed.None? {
        return;
      }
      var r := parsed.value;
      SoundStep(Abs(), Line(r));
      if r.seqNo in pending {
        pending := pending - {r.seqNo};
        if calls[r.seqNo].future.Unset? {
          calls := calls[r.seqNo := calls[r.seqNo].(future := Answered(r.status, r.message))];
        }
      }
    }

    /** What both the end of the read loop and a close do to the table, whose keys stand in the
        order they were drawn. */
    method FailPending()
      requires Sound(Abs())
      modifies `calls, `pending
      ensures Abs() == FailAll(old(Abs()))
    {
      hide Step;
      var n := 1;
      while n <= lastSeq
        invariant 1 <= n <= lastSeq + 1 && pending == old(pending)
        invariant forall k :: k in calls <==> 1 <= k <= lastSeq
        invariant forall k :: 1 <= k < n ==>
                    calls[k] == if k in pending then Failed(old(calls)[k]) else old(calls)[k]
        invariant forall k :: n <= k <= lastSeq ==> calls[k] == old(calls)[k]
      {
        if n in pending && calls[n].future.Unset? {
          calls := calls[n := calls[n].(future := Lost)];
        }
        n := n + 1;
      }
      pending := {};
      assert calls == FailAll(old(Abs())).calls;
    }

    method EndReadLoop()
      requires Sound(Abs())
      modifies this
      ensures Abs() == Step(old(Abs()), LoopEnds) && Sound(Abs())
    {
      SoundStep(Abs(), LoopEnds);
      FailPending();
    }

    /** The last part of `close`, after the reader and writer are gone. */
    method FinishClose()
      requires Sound(Abs())
      modifies this
      ensures Abs() == Step(old(Abs()), Closes) && Sound(Abs())
    {
      SoundStep(Abs(), Closes);
      FailPending();
      connected := false;
    }
  }
}
