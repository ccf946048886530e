/**
 The status line inside a CSV frame (spe/protocol.py): decoding it, and what decoding
 recovers from a line built out of fields.
 */
module StatusLine {
  import opened Sequences
  import opened Text
  import opened SerialFraming

  datatype OpStatus = Oper | Stby
  datatype TxStatus = TX | RX

  datatype AmplifierState = AmplifierState(
    modelId: string,
    opStatus: OpStatus,
    txStatus: TxStatus,
    input: string,
    band: string,
    txAntenna: string,
    pLevel: string,
    pOut: string,
    pOutAvg: real,
    pOutPeak: real,
    swr: string,
    aswr: string,
    voltage: string,
    drain: string,
    paTemp: string,
    paTempLower: string,
    paTempCombiner: string,
    temperatureUnit: char,
    warnings: string,
    error: string,
    tuneActive: bool)

  /** The state before any status frame has arrived. */
  function InitialState(unit: char): AmplifierState {
    AmplifierState("", Stby, RX, "0", "---", "0", "0", "0", 0.0, 0.0,
                   "0", "0", "0", "0", "0", "0", "0", unit, "", "", false)
  }

  const BAND_MAP: map<string, string> := map[
    "00" := "160m", "01" := "80m", "02" := "60m", "03" := "40m",
    "04" := "30m", "05" := "20m", "06" := "17m", "07" := "15m",
    "08" := "12m", "09" := "10m", "10" := "6m", "11" := "4m"]

  const WARNING_MAP: map<string, string> := map[
    "M" := "ALARM AMPLIFIER", "A" := "NO SELECTED ANTENNA", "S" := "SWR ANTENNA",
    "B" := "NO VALID BAND", "P" := "POWER LIMIT EXCEEDED", "O" := "OVERHEATING",
    "Y" := "ATU NOT AVAILABLE", "W" := "TUNING WITH NO POWER", "K" := "ATU BYPASSED",
    "R" := "POWER SWITCH HELD BY REMOTE", "T" := "COMBINER OVERHEATING",
    "C" := "COMBINER FAULT", "N" := ""]

  const ERROR_MAP: map<string, string> := map[
    "S" := "SWR EXCEEDING LIMITS", "A" := "AMPLIFIER PROTECTION",
    "D" := "INPUT OVERDRIVING", "H" := "EXCESS OVERHEATING",
    "C" := "COMBINER FAULT", "N" := ""]

  function GetOr(m: map<string, string>, key: string, default: string): string {
    if key in m then m[key] else default
  }

  predicate IsModel(s: string) {
    |s| == 3 && IsDigit(s[0]) && IsDigit(s[1]) && s[2] == 'K'
  }

  /** The first of the leading fields that looks like an amplifier code. */
  function ModelId(a: string, b: string, c: string): string {
    if IsModel(Strip(a)) then Strip(a)
    else if IsModel(Strip(b)) then Strip(b)
    else if IsModel(Strip(c)) then Strip(c)
    else ""
  }

  const MIN_FIELDS := 21

  predicate Known(op: string, tx: string) {
    (op == "O" || op == "S") && (tx == "T" || tx == "R")
  }

  function StateOf(data: seq<string>): AmplifierState
    requires |data| >= MIN_FIELDS
  {
    AmplifierState(
      ModelId(data[0], data[1], data[2]),
      if Strip(data[2]) == "O" then Oper else Stby,
      if Strip(data[3]) == "T" then TX else RX,
      data[5], GetOr(BAND_MAP, data[6], "???"), data[7], data[9], data[10], 0.0, 0.0,
      data[11], data[12], data[13], data[14], data[15], Strip(data[16]), Strip(data[17]),
      'C', GetOr(WARNING_MAP, data[18], ""), GetOr(ERROR_MAP, data[19], ""), false)
  }

  function ParseFields(data: seq<string>): Option<AmplifierState> {
    if |data| < MIN_FIELDS then None
    else if !Known(Strip(data[2]), Strip(data[3])) then None
    else Some(StateOf(data))
  }

  function ParseStatus(line: string): Option<AmplifierState> {
    ParseFields(Split(Strip(line), ','))
  }

  /** Payload bytes as text; anything outside ASCII becomes the replacement character. */
  function Decode(payload: seq<byte>): (s: string)
    ensures |s| == |payload|
    ensures forall i :: 0 <= i < |s| ==>
              s[i] == if payload[i] < 128 then payload[i] as char else '\U{FFFD}'
  {
    seq(|payload|, i requires 0 <= i < |payload| =>
      if payload[i] < 128 then payload[i] as char else '\U{FFFD}')
  }

  // ------------------------------------------------------------ stripping a joined line

  lemma {:induction false} TrimLeftStops(a: string, c: char, rest: string)
    requires !IsSpace(c)
    ensures TrimLeft(a + [c] + rest) == TrimLeft(a) + [c] + rest
  {
    var s := a + [c] + rest;
    if a != "" {
      assert s[1..] == a[1..] + [c] + rest;
      TrimLeftStops(a[1..], c, rest);
    }
  }

  lemma {:induction false} TrimRightStops(front: string, c: char, b: string)
    requires !IsSpace(c)
    ensures TrimRight(front + [c] + b) == front + [c] + TrimRight(b)
  {
    var s := front + [c] + b;
    if b != "" {
      assert s[..|s| - 1] == front + [c] + b[..|b| - 1];
      TrimRightStops(front, c, b[..|b| - 1]);
    }
  }

  lemma {:induction false} TrimLeftShrinks(s: string)
    ensures exists n :: 0 <= n <= |s| && TrimLeft(s) == s[n..]
  {
    if s != "" && IsSpace(s[0]) {
      TrimLeftShrinks(s[1..]);
      var n :| 0 <= n <= |s| - 1 && TrimLeft(s[1..]) == s[1..][n..];
      assert TrimLeft(s) == s[n + 1..];
    } else {
      assert s == s[0..];
    }
  }

  lemma {:induction false} TrimRightShrinks(s: string)
    ensures exists n :: 0 <= n <= |s| && TrimRight(s) == s[..n]
  {
    if s != "" && IsSpace(s[|s| - 1]) {
      var t := s[..|s| - 1];
      TrimRightShrinks(t);
      var n :| 0 <= n <= |t| && TrimRight(t) == t[..n];
      assert TrimRight(s) == s[..n];
    } else {
      assert s == s[..|s|];
    }
  }

  lemma TrimStaysFree(s: string)
    requires Free(s, ',')
    ensures Free(TrimLeft(s), ',') && Free(TrimRight(s), ',') && Free(Strip(s), ',')
  {
    TrimLeftShrinks(s);
    TrimRightShrinks(s);
    TrimRightShrinks(TrimLeft(s));
  }

  lemma {:induction false} TrimLeftAgain(s: string)
    ensures TrimLeft(TrimLeft(s)) == TrimLeft(s)
  {
    if s != "" && IsSpace(s[0]) {
      TrimLeftAgain(s[1..]);
    }
  }

  lemma {:induction false} JoinEnd(fields: seq<string>, last: string, sep: char)
    requires |fields| >= 1
    ensures Join(fields + [last], sep) == Join(fields, sep) + [sep] + last
  {
    if |fields| == 1 {
      assert (fields + [last])[1..] == [last];
    } else {
      DropOfSum(fields, [last], 1);
      JoinEnd(fields[1..], last, sep);
    }
  }

  lemma TrimLeftJoined(first: string, others: seq<string>)
    requires |others| >= 1
    ensures TrimLeft(Join([first] + others, ',')) == Join([TrimLeft(first)] + others, ',')
  {
    TrimLeftStops(first, ',', Join(others, ','));
    TailOfCons(first, others);
    TailOfCons(TrimLeft(first), others);
  }

  lemma TrimRightJoined(front: seq<string>, last: string)
    requires |front| >= 1
    ensures TrimRight(Join(front + [last], ',')) == Join(front + [TrimRight(last)], ',')
  {
    JoinEnd(front, last, ',');
    JoinEnd(front, TrimRight(last), ',');
    TrimRightStops(Join(front, ','), ',', last);
  }

  /** Stripping a line only shortens its first and last fields. */
  lemma StripJoined(first: string, inner: seq<string>, last: string)
    ensures Strip(Join([first] + inner + [last], ',')) ==
            Join([TrimLeft(first)] + inner + [TrimRight(last)], ',')
  {
    SumAssociates([first], inner, [last]);
    TrimLeftJoined(first, inner + [last]);
    SumAssociates([TrimLeft(first)], inner, [last]);
    TrimRightJoined([TrimLeft(first)] + inner, last);
  }

  /** Splitting the stripped line gives every inner field back unchanged. */
  lemma SplitStripped(fields: seq<string>)
    requires |fields| >= 2 && AllFree(fields, ',')
    ensures var data := Split(Strip(Join(fields, ',')), ',');
            |data| == |fields| && Strip(data[0]) == Strip(fields[0]) &&
            forall i :: 1 <= i < |fields| - 1 ==> data[i] == fields[i]
  {
    var n := |fields|;
    var kept := [TrimLeft(fields[0])] + fields[1..n - 1] + [TrimRight(fields[n - 1])];
    assert fields == [fields[0]] + fields[1..n - 1] + [fields[n - 1]];
    StripJoined(fields[0], fields[1..n - 1], fields[n - 1]);
    TrimStaysFree(fields[0]);
    TrimStaysFree(fields[n - 1]);
    assert forall i :: 0 < i < n - 1 ==> kept[i] == fields[i];
    SplitJoin(kept, ',');
    TrimLeftAgain(fields[0]);
  }

  /** What the decoder reads. A line of at least 21 comma-free fields is accepted exactly when
      its third and fourth fields are the known letters, and then every field it reads comes
      back as sent. */
  lemma ParseStatusRecovers(fields: seq<string>)
    requires |fields| >= MIN_FIELDS && AllFree(fields, ',')
    ensures var r := ParseStatus(Join(fields, ','));
            var op, tx := Strip(fields[2]), Strip(fields[3]);
            && (r.Some? <==> (op == "O" || op == "S") && (tx == "T" || tx == "R"))
            && (r.Some? ==>
                  var s := r.value;
                  && (s.opStatus.Oper? <==> op == "O") && (s.txStatus.TX? <==> tx == "T")
                  && s.modelId == ModelId(fields[0], fields[1], fields[2])
                  && s.input == fields[5] && s.txAntenna == fields[7] && s.pLevel == fields[9]
                  && s.pOut == fields[10] && s.swr == fields[11] && s.aswr == fields[12]
                  && s.voltage == fields[13] && s.drain == fields[14] && s.paTemp == fields[15]
                  && s.paTempLower == Strip(fields[16]) && s.paTempCombiner == Strip(fields[17])
                  && s.band == (if fields[6] in BAND_MAP then BAND_MAP[fields[6]] else "???")
                  && s.warnings == (if fields[18] in WARNING_MAP then WARNING_MAP[fields[18]] else "")
                  && s.error == (if fields[19] in ERROR_MAP then ERROR_MAP[fields[19]] else ""))
  {
    SplitStripped(fields);
  }

  lemma SplitLength(fields: seq<string>)
    requires |fields| >= 1 && AllFree(fields, ',')
    ensures |Split(Strip(Join(fields, ',')), ',')| == |fields|
  {
    if |fields| >= 2 {
      SplitStripped(fields);
    } else {
      TrimStaysFree(fields[0]);
      SplitFree(Strip(fields[0]), ',');
    }
  }

  /** A line with fewer than 21 fields is refused whatever it holds. */
  lemma ShortLineRefused(fields: seq<string>)
    requires 1 <= |fields| < MIN_FIELDS && AllFree(fields, ',')
    ensures ParseStatus(Join(fields, ',')).None?
  {
    hide *;
    SplitLength(fields);
    ShortRefused(Join(fields, ','));
  }

  lemma ShortRefused(line: string)
    requires |Split(Strip(line), ',')| < MIN_FIELDS
    ensures ParseStatus(line).None?
  {
  }

  /** The bytes of an ASCII status line. */
  function Ascii(s: string): (b: seq<byte>)
    requires forall i :: 0 <= i < |s| ==> s[i] as int < 128
    ensures |b| == |s|
    ensures Decode(b) == s
  {
    seq(|s|, i requires 0 <= i < |s| => s[i] as int)
  }
}
