/**
 The state a radio streams to its client: the slice cache of spe/flex.py and the VFO cache of
 spe/tci.py, both a map from receiver to the latest fields, both built line by line.
 */
module EventCaches {
  import opened Sequences
  import opened Text

  type Fields = map<string, string>

  type Cache = map<int, Fields>

  datatype Write = Write(receiver: int, key: string, value: string)

  function FieldsOf(c: Cache, n: int): Fields {
    if n in c then c[n] else map[]
  }

  function Get(c: Cache, n: int, key: string): Option<string> {
    if key in FieldsOf(c, n) then Some(FieldsOf(c, n)[key]) else None
  }

  /** `setdefault(n, {})`. */
  function Touch(c: Cache, n: int): Cache {
    c[n := FieldsOf(c, n)]
  }

  function Put(c: Cache, w: Write): Cache {
    c[w.receiver := FieldsOf(c, w.receiver)[w.key := w.value]]
  }

  function PutAll(c: Cache, ws: seq<Write>): Cache {
    if ws == [] then c else Put(PutAll(c, ws[..|ws| - 1]), ws[|ws| - 1])
  }

  /** The value of the last write to a field, looking back from the end of the history. */
  function LastWrite(ws: seq<Write>, n: int, key: string): Option<string> {
    if ws == [] then None
    else
      var last := ws[|ws| - 1];
      if last.receiver == n && last.key == key then Some(last.value)
      else LastWrite(ws[..|ws| - 1], n, key)
  }

  function OrElse(a: Option<string>, b: Option<string>): Option<string> {
    if a.Some? then a else b
  }

  lemma {:induction false} LastWriterWins(c: Cache, ws: seq<Write>, n: int, key: string)
    ensures Get(PutAll(c, ws), n, key) == OrElse(LastWrite(ws, n, key), Get(c, n, key))
  {
    if ws != [] {
      LastWriterWins(c, ws[..|ws| - 1], n, key);
    }
  }

  lemma {:induction false} LastWriteOfSum(a: seq<Write>, b: seq<Write>, n: int, key: string)
    ensures LastWrite(a + b, n, key) == OrElse(LastWrite(b, n, key), LastWrite(a, n, key))
  {
    if b == [] {
      SumNothing(a);
    } else {
      var s := a + b;
      assert s[|s| - 1] == b[|b| - 1] && s[..|s| - 1] == a + b[..|b| - 1];
      LastWriteOfSum(a, b[..|b| - 1], n, key);
    }
  }

  // ------------------------------------------------------------ Flex: slice events

  datatype SliceEvent = SliceEvent(slice: int, tokens: seq<string>)

  const SLICE := "slice "

  /** `slice <N> <key=value> ...`; anything else is not for the cache. */
  function ParseSlice(message: string): Option<SliceEvent> {
    if |message| < 6 || message[..6] != SLICE then None
    else
      var words := Words(message[6..]);
      if |words| < 2 || ParseInt(words[0]).None? then None
      else Some(SliceEvent(ParseInt(words[0]).value, words[1..]))
  }

  /** A token that is no assignment is skipped; a value may contain further equals signs. */
  function TokenWrites(n: int, token: string): seq<Write> {
    var (key, value) := Cut(token, '=');
    if value.Some? then [Write(n, key, value.value)] else []
  }

  function TokensWrites(n: int, tokens: seq<string>): seq<Write> {
    if tokens == [] then []
    else TokensWrites(n, tokens[..|tokens| - 1]) + TokenWrites(n, tokens[|tokens| - 1])
  }

  /** The writes of one message. */
  function SliceWrites(message: string): seq<Write> {
    match ParseSlice(message)
    case None => []
    case Some(e) => TokensWrites(e.slice, e.tokens)
  }

  function UpdateSlice(c: Cache, message: string): Cache {
    match ParseSlice(message)
    case None => c
    case Some(e) => PutAll(Touch(c, e.slice), TokensWrites(e.slice, e.tokens))
  }

  function SliceCacheAfter(messages: seq<string>): Cache {
    if messages == [] then map[]
    else UpdateSlice(SliceCacheAfter(messages[..|messages| - 1]), messages[|messages| - 1])
  }

  function SliceHistory(messages: seq<string>): seq<Write> {
    if messages == [] then []
    else SliceHistory(messages[..|messages| - 1]) + SliceWrites(messages[|messages| - 1])
  }

  /** The slice cache holds, for each field, the value of the last event that carried it; a
      partial event leaves the other fields as they were. */
  lemma {:induction false} SliceCacheIsLastWriter(messages: seq<string>, n: int, key: string)
    ensures Get(SliceCacheAfter(messages), n, key) == LastWrite(SliceHistory(messages), n, key)
  {
    if messages != [] {
      hide ParseSlice, PutAll, TokensWrites;
      var front, message := messages[..|messages| - 1], messages[|messages| - 1];
      SliceCacheIsLastWriter(front, n, key);
      LastWriteOfSum(SliceHistory(front), SliceWrites(message), n, key);
      var c := SliceCacheAfter(front);
      match ParseSlice(message) {
        case None =>
        case Some(e) => LastWriterWins(Touch(c, e.slice), TokensWrites(e.slice, e.tokens), n, key);
      }
    }
  }

  function SliceMessage(n: int, tokens: seq<string>): string
    requires |tokens| >= 1
  {
    SLICE + Join([IntText(n)] + tokens, ' ')
  }

  lemma IntTextIsWord(n: int)
    ensures IsWord(IntText(n))
  {
    var m: nat := if n < 0 then -n else n;
    var digits, text := NatText(m), IntText(n);
    forall i | 0 <= i < |text|
      ensures !IsSpace(text[i])
    {
      assert text[i] == '-' || text[i] in digits;
      if text[i] in digits {
        var k :| 0 <= k < |digits| && digits[k] == text[i];
        assert IsDigit(digits[k]);
      }
    }
  }

  /** A slice event as the radio writes it is taken apart into just its receiver and tokens. */
  lemma SliceMessageBack(n: int, tokens: seq<string>)
    requires |tokens| >= 1 && AllWords(tokens)
    ensures ParseSlice(SliceMessage(n, tokens)) == Some(SliceEvent(n, tokens))
  {
    hide Words, ParseInt, IsWord;
    var words := [IntText(n)] + tokens;
    IntTextIsWord(n);
    assert AllWords(words);
    WordsOfJoin(words);
    IntRoundTrip(n);
    var message := SliceMessage(n, tokens);
    assert message[..6] == SLICE && message[6..] == Join(words, ' ');
    TailOfCons(IntText(n), tokens);
  }

  // ------------------------------------------------------------ what a slice event means

  /** A token assigns to a key when it starts with the key and an equals sign. */
  predicate Assigns(token: string, key: string) {
    key + "=" <= token
  }

  predicate AssignsAny(tokens: seq<string>, key: string) {
    exists i :: 0 <= i < |tokens| && Assigns(tokens[i], key)
  }

  /** A message about slice `n` that gives a field a value. */
  predicate Mentions(message: string, n: int, key: string) {
    match ParseSlice(message)
    case None => false
    case Some(e) => e.slice == n && AssignsAny(e.tokens, key)
  }

  lemma {:induction false} CutNone(s: string, sep: char)
    ensures Cut(s, sep).1.None? <==> Free(s, sep)
    ensures Cut(s, sep).1.Some? ==> s == Cut(s, sep).0 + [sep] + Cut(s, sep).1.value && Free(Cut(s, sep).0, sep)
  {
    if s != "" && s[0] != sep {
      CutNone(s[1..], sep);
      assert s == [s[0]] + s[1..];
    }
  }

  lemma TokenWritten(n: int, token: string, key: string, value: string)
    requires Free(key, '=') && token == key + "=" + value
    ensures TokenWrites(n, token) == [Write(n, key, value)]
  {
    CutFirst(key, value, '=');
  }

  lemma TokenOnOther(n: int, token: string, key: string)
    requires Free(key, '=') && !Assigns(token, key)
    ensures forall w :: w in TokenWrites(n, token) ==> w.receiver == n && w.key != key
  {
    CutNone(token, '=');
    var (head, rest) := Cut(token, '=');
    if rest.Some? {
      HeadIsAssigned(head, rest.value);
    }
  }

  lemma HeadIsAssigned(key: string, value: string)
    ensures Assigns(key + ['='] + value, key)
  {
    assert (key + ['='] + value)[..|key| + 1] == key + "=";
  }

  lemma {:induction false} NoLastWrite(ws: seq<Write>, n: int, key: string)
    requires forall w :: w in ws ==> w.receiver != n || w.key != key
    ensures LastWrite(ws, n, key) == None
  {
    if ws != [] {
      NoLastWrite(ws[..|ws| - 1], n, key);
    }
  }

  lemma {:induction false} TokensOnOthers(n: int, tokens: seq<string>, key: string)
    requires Free(key, '=') && !AssignsAny(tokens, key)
    ensures forall w :: w in TokensWrites(n, tokens) ==> w.receiver == n && w.key != key
  {
    hide Assigns, Free;
    if tokens != [] {
      var front := tokens[..|tokens| - 1];
      assert Assigns(tokens[|tokens| - 1], key) ==> AssignsAny(tokens, key);
      NoneInFront(tokens, key);
      TokensOnOthers(n, front, key);
      TokenOnOther(n, tokens[|tokens| - 1], key);
    }
  }

  lemma NoneInFront(tokens: seq<string>, key: string)
    requires tokens != [] && !AssignsAny(tokens, key)
    ensures !AssignsAny(tokens[..|tokens| - 1], key)
  {
    var front := tokens[..|tokens| - 1];
    forall i | 0 <= i < |front|
      ensures !Assigns(front[i], key)
    {
      assert front[i] == tokens[i];
    }
  }

  lemma {:induction false} TokensForSlice(n: int, tokens: seq<string>)
    ensures forall w :: w in TokensWrites(n, tokens) ==> w.receiver == n
  {
    if tokens != [] {
      TokensForSlice(n, tokens[..|tokens| - 1]);
    }
  }

  /** The last token that assigns to a key decides. */
  lemma {:induction false} LastTokenDecides(n: int, tokens: seq<string>, i: nat, key: string, value: string)
    requires i < |tokens| && Free(key, '=') && tokens[i] == key + "=" + value
    requires forall j :: i < j < |tokens| ==> !Assigns(tokens[j], key)
    ensures LastWrite(TokensWrites(n, tokens), n, key) == Some(value)
  {
    hide Assigns, Free;
    var front, last := tokens[..|tokens| - 1], tokens[|tokens| - 1];
    LastWriteOfSum(TokensWrites(n, front), TokenWrites(n, last), n, key);
    if i == |tokens| - 1 {
      TokenWritten(n, last, key, value);
    } else {
      LastTokenDecides(n, front, i, key, value);
      TokenOnOther(n, last, key);
      NoLastWrite(TokenWrites(n, last), n, key);
    }
  }

  /** What a slice event does to the cache: a field that a token assigns to, and none after it,
      takes the value after the token's first equals sign. */
  lemma SliceEventSets(c: Cache, n: int, tokens: seq<string>, i: nat, key: string, value: string)
    requires AllWords(tokens) && i < |tokens| && Free(key, '=') && tokens[i] == key + "=" + value
    requires forall j :: i < j < |tokens| ==> !Assigns(tokens[j], key)
    ensures Get(UpdateSlice(c, SliceMessage(n, tokens)), n, key) == Some(value)
  {
    hide SliceMessage, ParseSlice, PutAll, TokensWrites, AllWords, Free, Assigns;
    SliceMessageBack(n, tokens);
    LastTokenDecides(n, tokens, i, key, value);
    LastWriterWins(Touch(c, n), TokensWrites(n, tokens), n, key);
  }

  /** A message that gives a field no value leaves it as it was, be it of another slice, about
      other fields, without an assignment or no slice event at all. */
  lemma OthersAreKept(c: Cache, message: string, n: int, key: string)
    requires Free(key, '=') && !Mentions(message, n, key)
    ensures Get(UpdateSlice(c, message), n, key) == Get(c, n, key)
  {
    hide ParseSlice, PutAll, TokensWrites, Free, AssignsAny;
    match ParseSlice(message)
    case None =>
    case Some(e) =>
      LastWriterWins(Touch(c, e.slice), TokensWrites(e.slice, e.tokens), n, key);
      TokensForSlice(e.slice, e.tokens);
      if e.slice == n {
        TokensOnOthers(n, e.tokens, key);
      }
      NoLastWrite(TokensWrites(e.slice, e.tokens), n, key);
  }

  lemma {:induction false} KeptSince(messages: seq<string>, k: nat, n: int, key: string)
    requires k <= |messages| && Free(key, '=')
    requires forall i :: k <= i < |messages| ==> !Mentions(messages[i], n, key)
    ensures Get(SliceCacheAfter(messages), n, key) == Get(SliceCacheAfter(messages[..k]), n, key)
    decreases |messages|
  {
    hide Mentions, UpdateSlice, Free;
    if k == |messages| {
      assert messages[..k] == messages;
    } else {
      var front := messages[..|messages| - 1];
      assert front[..k] == messages[..k];
      KeptSince(front, k, n, key);
      OthersAreKept(SliceCacheAfter(front), messages[|messages| - 1], n, key);
    }
  }

  /** The cache holds what the last event to assign to a field said, whatever else was sent
      before and after it. */
  lemma SliceFieldIsLastSaid(messages: seq<string>, k: nat, n: int, tokens: seq<string>, i: nat, key: string, value: string)
    requires k < |messages| && AllWords(tokens) && i < |tokens| && messages[k] == SliceMessage(n, tokens)
    requires Free(key, '=') && tokens[i] == key + "=" + value
    requires forall j :: i < j < |tokens| ==> !Assigns(tokens[j], key)
    requires forall j :: k < j < |messages| ==> !Mentions(messages[j], n, key)
    ensures Get(SliceCacheAfter(messages), n, key) == Some(value)
  {
    hide Mentions, UpdateSlice, Free, Assigns, SliceMessage, AllWords;
    KeptSince(messages, k + 1, n, key);
    var now := messages[..k + 1];
    assert now[..k] == messages[..k] && now[k] == messages[k];
    SliceEventSets(SliceCacheAfter(messages[..k]), n, tokens, i, key, value);
  }

  // ------------------------------------------------------------ TCI: commands in frames

  datatype Tci = Tci(ready: bool, version: string, vfo: Cache)

  const TCI_START := Tci(false, "", map[])

  function AfterColon(line: string): string {
    match Cut(line, ':').1
    case None => ""
    case Some(rest) => rest
  }

  /** The write of a `vfo` or `modulation` line: only channel 0, the VFO that is tuned. */
  function LineWrites(line: string): seq<Write> {
    var head, parts := Lower(Cut(line, ':').0), Split(AfterColon(line), ',');
    if head == "vfo" && |parts| >= 3 && ParseInt(parts[0]).Some? && ParseInt(parts[1]) == Some(0) then
      [Write(ParseInt(parts[0]).value, "freq", Strip(parts[2]))]
    else if head == "modulation" && |parts| >= 2 && ParseInt(parts[0]).Some? then
      [Write(ParseInt(parts[0]).value, "mode", Strip(parts[1]))]
    else []
  }

  function Dispatch(s: Tci, line: string): Tci {
    if line == "" then s
    else
      var head := Lower(Cut(line, ':').0);
      if head == "ready" then s.(ready := true)
      else if head == "vfo" || head == "modulation" then s.(vfo := PutAll(s.vfo, LineWrites(line)))
      else if (head == "device" || head == "protocol") && s.version == "" then
        s.(version := Strip(AfterColon(line)))
      else s
  }

  function DispatchAll(s: Tci, parts: seq<string>): Tci {
    if parts == [] then s
    else Dispatch(DispatchAll(s, parts[..|parts| - 1]), Strip(parts[|parts| - 1]))
  }

  /** One text frame of the socket. */
  function Receive(s: Tci, frame: string): Tci {
    DispatchAll(s, Split(frame, ';'))
  }

  function ReceiveAll(s: Tci, frames: seq<string>): Tci {
    if frames == [] then s else Receive(ReceiveAll(s, frames[..|frames| - 1]), frames[|frames| - 1])
  }

  lemma {:induction false} DispatchAllSum(s: Tci, a: seq<string>, b: seq<string>)
    ensures DispatchAll(s, a + b) == DispatchAll(DispatchAll(s, a), b)
  {
    hide Dispatch;
    if b == [] {
      SumNothing(a);
    } else {
      var t := a + b;
      assert t[|t| - 1] == b[|b| - 1] && t[..|t| - 1] == a + b[..|b| - 1];
      DispatchAllSum(s, a, b[..|b| - 1]);
    }
  }

  predicate Terminated(frame: string) {
    frame != "" && frame[|frame| - 1] == ';'
  }

  lemma NothingAfterTerminator(s: Tci, a: string)
    ensures Receive(s, a + ";") == Receive(s, a)
  {
    hide Split, Dispatch;
    assert a + ";" == a + [';'] + "";
    SplitSum(a, "", ';');
    SplitFree("", ';');
    FrontOfSnoc(Split(a, ';'), "");
    assert Strip("") == "";
    EmptyLine(DispatchAll(s, Split(a, ';')));
  }

  lemma EmptyLine(s: Tci)
    ensures Dispatch(s, "") == s
  {
  }

  /** A frame boundary after a terminator makes no difference. */
  lemma FrameBoundary(s: Tci, a: string, b: string)
    requires Terminated(a)
    ensures Receive(s, a + b) == Receive(Receive(s, a), b)
  {
    hide Split, Dispatch;
    var body := a[..|a| - 1];
    assert a == body + ";" && a + b == body + [';'] + b;
    SplitSum(body, b, ';');
    DispatchAllSum(s, Split(body, ';'), Split(b, ';'));
    NothingAfterTerminator(s, body);
  }

  lemma {:induction false} FramesAreOneText(s: Tci, frames: seq<string>)
    requires forall i :: 0 <= i < |frames| ==> Terminated(frames[i])
    ensures ReceiveAll(s, frames) == Receive(s, Concat(frames))
    ensures frames != [] ==> Terminated(Concat(frames))
  {
    hide Split, Dispatch;
    if frames == [] {
      SplitFree("", ';');
      assert DispatchAll(s, [""]) == Dispatch(DispatchAll(s, []), Strip(""));
      assert Strip("") == "";
      EmptyLine(s);
    } else {
      var front, last := frames[..|frames| - 1], frames[|frames| - 1];
      FramesAreOneText(s, front);
      ConcatSnoc(front, last);
      assert front + [last] == frames;
      if front == [] {
        assert Concat(frames) == last;
      } else {
        FrameBoundary(s, Concat(front), last);
      }
    }
  }

  lemma {:induction false} ConcatSnoc(parts: seq<string>, last: string)
    ensures Concat(parts + [last]) == Concat(parts) + last
  {
    if parts == [] {
      assert Concat([last]) == last + Concat([]) == last;
    } else {
      var s := parts + [last];
      assert s[0] == parts[0] && s[1..] == parts[1..] + [last];
      ConcatSnoc(parts[1..], last);
    }
  }

  /** However the same terminated commands are grouped into frames, the outcome is the same. */
  lemma GroupingInvariance(s: Tci, frames: seq<string>, others: seq<string>)
    requires forall i :: 0 <= i < |frames| ==> Terminated(frames[i])
    requires forall i :: 0 <= i < |others| ==> Terminated(others[i])
    requires Concat(frames) == Concat(others)
    ensures ReceiveAll(s, frames) == ReceiveAll(s, others)
  {
    FramesAreOneText(s, frames);
    FramesAreOneText(s, others);
  }

  function LinesHistory(parts: seq<string>): seq<Write> {
    if parts == [] then []
    else LinesHistory(parts[..|parts| - 1]) + LineWrites(Strip(parts[|parts| - 1]))
  }

  lemma LineWritesOf(s: Tci, line: string, n: int, key: string)
    ensures Get(Dispatch(s, line).vfo, n, key) == OrElse(LastWrite(LineWrites(line), n, key), Get(s.vfo, n, key))
  {
    hide ParseInt, Split, Strip;
    LastWriterWins(s.vfo, LineWrites(line), n, key);
    if line == "" {
      assert Lower(Cut(line, ':').0) == "";
    }
  }

  /** The VFO cache, too, holds the last value of each field over the whole text received. */
  lemma {:induction false} VfoCacheIsLastWriter(parts: seq<string>, n: int, key: string)
    ensures Get(DispatchAll(TCI_START, parts).vfo, n, key) == LastWrite(LinesHistory(parts), n, key)
  {
    if parts != [] {
      hide Dispatch, LineWrites, LastWrite;
      var front, line := parts[..|parts| - 1], Strip(parts[|parts| - 1]);
      VfoCacheIsLastWriter(front, n, key);
      LineWritesOf(DispatchAll(TCI_START, front), line, n, key);
      LastWriteOfSum(LinesHistory(front), LineWrites(line), n, key);
    }
  }

  // ------------------------------------------------------------ what a TCI command means

  function VfoArgs(n: int, channel: int, text: string): string {
    Join([IntText(n), IntText(channel), text], ',')
  }

  /** `vfo:<trx>,<channel>,<hz>` and `modulation:<trx>,<mode>`, without their terminator. */
  function VfoLine(n: int, channel: int, text: string): string {
    "vfo" + [':'] + VfoArgs(n, channel, text)
  }

  function ModeLine(n: int, mode: string): string {
    "modulation" + [':'] + Join([IntText(n), mode], ',')
  }

  predicate Argument(s: string) {
    s != "" && Tight(s) && Free(s, ',') && Free(s, ';')
  }

  lemma IntTextIsArgument(n: int)
    ensures Argument(IntText(n)) && Free(IntText(n), ':')
  {
    var m: nat := if n < 0 then -n else n;
    var digits, text := NatText(m), IntText(n);
    assert forall i :: 0 <= i < |digits| ==> IsDigit(digits[i]);
    forall i | 0 <= i < |text|
      ensures text[i] != ',' && text[i] != ';' && text[i] != ':' && !IsSpace(text[i])
    {
      assert text[i] == '-' || text[i] in digits;
    }
  }

  lemma VfoArgsApart(n: int, channel: int, text: string)
    requires Argument(text)
    ensures Split(VfoArgs(n, channel, text), ',') == [IntText(n), IntText(channel), text]
  {
    hide Split, IntText;
    IntTextIsArgument(n);
    IntTextIsArgument(channel);
    SplitJoin([IntText(n), IntText(channel), text], ',');
  }

  lemma HeadOf(head: string, rest: string)
    requires Free(head, ':')
    ensures Cut(head + [':'] + rest, ':').0 == head && AfterColon(head + [':'] + rest) == rest
  {
    CutFirst(head, rest, ':');
  }

  lemma LowerHeads()
    ensures Lower("vfo") == "vfo" && Lower("modulation") == "modulation"
  {
    assert Lower("modulation") == "modulation";
  }

  /** A VFO line of channel 0 sets the receiver's frequency and nothing else; of any other
      channel it sets nothing. */
  lemma VfoLineMeans(s: Tci, n: int, channel: int, text: string)
    requires Argument(text)
    ensures Dispatch(s, VfoLine(n, channel, text)) ==
            if channel == 0 then s.(vfo := Put(s.vfo, Write(n, "freq", text))) else s
  {
    hide Split, Strip, ParseInt, IntText, Lower, Cut, AfterColon, VfoArgs;
    HeadOf("vfo", VfoArgs(n, channel, text));
    LowerHeads();
    VfoArgsApart(n, channel, text);
    IntRoundTrip(n);
    IntRoundTrip(channel);
    StripTight(text);
    assert PutAll(s.vfo, []) == s.vfo;
    assert [Write(n, "freq", text)][..0] == [];
  }

  lemma ModeArgsApart(n: int, mode: string)
    requires Argument(mode)
    ensures Split(Join([IntText(n), mode], ','), ',') == [IntText(n), mode]
  {
    hide Split, IntText;
    IntTextIsArgument(n);
    SplitJoin([IntText(n), mode], ',');
  }

  /** A modulation line sets the receiver's mode and nothing else. */
  lemma ModeLineMeans(s: Tci, n: int, mode: string)
    requires Argument(mode)
    ensures Dispatch(s, ModeLine(n, mode)) == s.(vfo := Put(s.vfo, Write(n, "mode", mode)))
  {
    hide Split, Strip, ParseInt, IntText, Lower, Cut, AfterColon, Join;
    HeadOf("modulation", Join([IntText(n), mode], ','));
    LowerHeads();
    ModeArgsApart(n, mode);
    IntRoundTrip(n);
    StripTight(mode);
    assert PutAll(s.vfo, []) == s.vfo;
    assert [Write(n, "mode", mode)][..0] == [];
  }

  /** A line that begins with neither command, in any case of letters. */
  predicate OtherCommand(line: string) {
    var head := Lower(Cut(line, ':').0);
    head != "vfo" && head != "modulation"
  }

  lemma OtherCommandMeans(s: Tci, line: string)
    requires OtherCommand(line)
    ensures Dispatch(s, line).vfo == s.vfo
  {
  }

  // Lines that say nothing about a receiver's frequency, or about its mode.

  predicate IsVfoLine(line: string, n: int, channel: int, text: string) {
    Argument(text) && line == VfoLine(n, channel, text)
  }

  predicate IsModeLine(line: string, n: int, mode: string) {
    Argument(mode) && line == ModeLine(n, mode)
  }

  ghost predicate SilentOn(line: string, n: int, key: string) {
    || OtherCommand(line)
    || (exists m, channel, text :: IsVfoLine(line, m, channel, text) && (key != "freq" || m != n || channel != 0))
    || (exists m, mode :: IsModeLine(line, m, mode) && (key != "mode" || m != n))
  }

  lemma SilentKeeps(s: Tci, line: string, n: int, key: string)
    requires SilentOn(line, n, key)
    ensures Get(Dispatch(s, line).vfo, n, key) == Get(s.vfo, n, key)
  {
    hide Dispatch, VfoLine, ModeLine, OtherCommand;
    if OtherCommand(line) {
      OtherCommandMeans(s, line);
    } else if m, channel, text :| IsVfoLine(line, m, channel, text) && (key != "freq" || m != n || channel != 0) {
      VfoLineMeans(s, m, channel, text);
    } else {
      var m, mode :| IsModeLine(line, m, mode) && (key != "mode" || m != n);
      ModeLineMeans(s, m, mode);
    }
  }

  lemma {:induction false} SilentSince(parts: seq<string>, k: nat, n: int, key: string)
    requires k <= |parts|
    requires forall i :: k <= i < |parts| ==> SilentOn(Strip(parts[i]), n, key)
    ensures Get(DispatchAll(TCI_START, parts).vfo, n, key) == Get(DispatchAll(TCI_START, parts[..k]).vfo, n, key)
    decreases |parts|
  {
    hide SilentOn, Dispatch, Strip;
    if k == |parts| {
      assert parts[..k] == parts;
    } else {
      var front := parts[..|parts| - 1];
      assert front[..k] == parts[..k];
      SilentSince(front, k, n, key);
      SilentKeeps(DispatchAll(TCI_START, front), Strip(parts[|parts| - 1]), n, key);
    }
  }

  /** Line `k` says `value` about a field of receiver `n`, and no line after it says anything. */
  ghost predicate LastSays(parts: seq<string>, k: nat, n: int, key: string, value: string) {
    && k < |parts|
    && ((key == "freq" && IsVfoLine(Strip(parts[k]), n, 0, value)) ||
        (key == "mode" && IsModeLine(Strip(parts[k]), n, value)))
    && forall i :: k < i < |parts| ==> SilentOn(Strip(parts[i]), n, key)
  }

  /** The VFO cache holds what was last said about a field, whatever else was said before and
      after. */
  lemma VfoFieldIsLastSaid(parts: seq<string>, k: nat, n: int, key: string, value: string)
    requires LastSays(parts, k, n, key, value)
    ensures Get(DispatchAll(TCI_START, parts).vfo, n, key) == Some(value)
  {
    hide SilentOn, Dispatch, Strip, VfoLine, ModeLine;
    var now := parts[..k + 1];
    assert now[..k] == parts[..k] && now[k] == parts[k];
    SilentSince(parts, k + 1, n, key);
    var before := DispatchAll(TCI_START, parts[..k]);
    if key == "freq" {
      VfoLineMeans(before, n, 0, value);
    } else {
      ModeLineMeans(before, n, value);
    }
  }

  /** A field nobody has said anything about is unknown. */
  lemma VfoFieldUnsaid(parts: seq<string>, n: int, key: string)
    requires forall i :: 0 <= i < |parts| ==> SilentOn(Strip(parts[i]), n, key)
    ensures Get(DispatchAll(TCI_START, parts).vfo, n, key) == None
  {
    hide SilentOn, Dispatch, Strip;
    SilentSince(parts, 0, n, key);
    assert parts[..0] == [];
  }

  /** The radio has said it is ready exactly when some line's command is `ready`. */
  lemma {:induction false} ReadyIsSaid(parts: seq<string>)
    ensures DispatchAll(TCI_START, parts).ready <==>
            exists i :: 0 <= i < |parts| && Lower(Cut(Strip(parts[i]), ':').0) == "ready"
  {
    hide Lower, Cut, Strip, LineWrites;
    if parts != [] {
      var n := |parts| - 1;
      var front := parts[..n];
      ReadyIsSaid(front);
      ReadyStep(DispatchAll(TCI_START, front), Strip(parts[n]));
      if i :| 0 <= i < |front| && Lower(Cut(Strip(front[i]), ':').0) == "ready" {
        assert parts[i] == front[i];
      }
      if i :| 0 <= i < |parts| && Lower(Cut(Strip(parts[i]), ':').0) == "ready" {
        assert i < n ==> front[i] == parts[i];
      }
    }
  }

  lemma ReadyStep(s: Tci, line: string)
    ensures Dispatch(s, line).ready <==> s.ready || Lower(Cut(line, ':').0) == "ready"
  {
    hide LineWrites;
    if line == "" {
      assert Lower(Cut("", ':').0) == "";
    }
  }

  // ------------------------------------------------------------ the loops that keep them

  class SliceCache {
    var state: Cache

    constructor ()
      ensures state == map[]
    {
      state := map[];
    }

    method Update(message: string)
      modifies this
      ensures state == UpdateSlice(old(state), message)
    {
      hide ParseSlice, Cut, TokensWrites, PutAll, Put;
      var event := ParseSlice(message);
      if event.None? {
        return;
      }
      var n, tokens := event.value.slice, event.value.tokens;
      state := Touch(state, n);
      var i := 0;
      NoTokens(Touch(old(state), n), n, tokens);
      while i < |tokens|
        invariant 0 <= i <= |tokens|
        invariant state == PutAll(Touch(old(state), n), TokensWrites(n, tokens[..i]))
      {
        OneToken(Touch(old(state), n), n, tokens, i);
        var (key, value) := Cut(tokens[i], '=');
        if value.Some? {
          state := Put(state, Write(n, key, value.value));
        }
        i := i + 1;
      }
      assert tokens[..i] == tokens;
    }
  }

  lemma NoTokens(c: Cache, n: int, tokens: seq<string>)
    ensures PutAll(c, TokensWrites(n, tokens[..0])) == c
  {
  }

  lemma OneToken(c: Cache, n: int, tokens: seq<string>, i: nat)
    requires i < |tokens|
    ensures var before := PutAll(c, TokensWrites(n, tokens[..i]));
            var (key, value) := Cut(tokens[i], '=');
            PutAll(c, TokensWrites(n, tokens[..i + 1])) ==
            if value.Some? then Put(before, Write(n, key, value.value)) else before
  {
    hide Cut, Put;
    var now := tokens[..i + 1];
    assert now[..i] == tokens[..i] && now[i] == tokens[i];
    var (key, value) := Cut(tokens[i], '=');
    if value.Some? {
      FrontOfSnoc(TokensWrites(n, tokens[..i]), Write(n, key, value.value));
    } else {
      SumNothing(TokensWrites(n, tokens[..i]));
    }
  }

  /** The TCI client: its socket, the reader of each socket, and the channel it keys. */
  class TciConnection {
    var socket: Option<nat>
    var txChannel: int
    var state: Tci
    /** Sockets opened that the radio has not ended and nobody has closed. */
    ghost var live: set<nat>
    ghost var sent: seq<string>

    constructor ()
      ensures socket == None && live == {} && state == TCI_START && txChannel == 0 && sent == []
    {
      socket, live, state, txChannel, sent := None, {}, TCI_START, 0, [];
    }

    method Connect(newSocket: nat)
      modifies this
      ensures socket == Some(newSocket) && live == old(live) + {newSocket} && !state.ready
      ensures state == old(state).(ready := false) && txChannel == old(txChannel) && sent == old(sent)
    {
      state := state.(ready := false);
      socket, live := Some(newSocket), live + {newSocket};
    }

    /** One frame, dispatched command by command. */
    method ReadFrame(frame: string)
      modifies `state
      ensures state == Receive(old(state), frame)
    {
      hide Dispatch, Strip;
      var parts := Split(frame, ';');
      var i := 0;
      while i < |parts|
        invariant 0 <= i <= |parts|
        invariant state == DispatchAll(old(state), parts[..i])
      {
        assert parts[..i + 1][..i] == parts[..i];
        state := Dispatch(state, Strip(parts[i]));
        i := i + 1;
      }
      assert parts[..i] == parts;
    }

    /** The end of the loop that read `mine`: a newer socket is not its to drop. */
    method ReadLoopEnded(mine: nat)
      modifies this
      ensures socket == if old(socket) == Some(mine) then None else old(socket)
      ensures live == old(live) - {mine} && state.vfo == old(state).vfo
      ensures state.ready == (old(state).ready && old(socket) != Some(mine))
      ensures txChannel == old(txChannel) && sent == old(sent)
    {
      live := live - {mine};
      if socket == Some(mine) {
        socket, state := None, state.(ready := false);
      }
    }

    /** The reader's cancellation clears `socket` before the socket itself is closed, so it is
        remembered first: the one that was open is never leaked. */
    method Close()
      modifies this
      ensures socket == None && !state.ready && state.vfo == old(state).vfo
      ensures live == if old(socket).Some? then old(live) - {old(socket).value} else old(live)
    {
      var mine := socket;
      var reading: bool := *;
      if reading && socket.Some? {
        socket, state := None, state.(ready := false);
      }
      if mine.Some? {
        live := live - {mine.value};
      }
      socket, state := None, state.(ready := false);
    }

    method Send(message: string) returns (ok: bool)
      modifies `sent
      ensures socket.None? ==> !ok
      ensures sent == old(sent) + if ok then [message] else []
    {
      var written: bool := *;
      ok := socket.Some? && written;
      if ok {
        sent := sent + [message];
      }
    }

    method SetFrequencyHz(channel: int, hz: int) returns (ok: bool)
      modifies `sent, `txChannel
      ensures txChannel == channel
      ensures sent == old(sent) + if ok then [VfoCommand(channel, hz)] else []
    {
      txChannel := channel;
      ok := Send(VfoCommand(channel, hz));
    }

    method SetMode(channel: int, mode: string) returns (ok: bool)
      modifies `sent, `txChannel
      ensures txChannel == channel
      ensures sent == old(sent) + if ok then [ModeCommand(channel, Upper(Strip(mode)))] else []
    {
      txChannel := channel;
      ok := Send(ModeCommand(channel, Upper(Strip(mode))));
    }

    /** Keys the receiver whose frequency or mode was set last. */
    method TuneCarrier(on: bool) returns (ok: bool)
      modifies `sent
      ensures sent == old(sent) + if ok then ["tune:" + IntText(txChannel) + (if on then ",true;" else ",false;")]
                                  else []
    {
      ok := Send("tune:" + IntText(txChannel) + (if on then ",true;" else ",false;"));
    }
  }

  function VfoCommand(channel: int, hz: int): string {
    "vfo:" + Join([IntText(channel), "0", IntText(hz)], ',') + ";"
  }

  function ModeCommand(channel: int, mode: string): string {
    "modulation:" + Join([IntText(channel), mode], ',') + ";"
  }
}
