/**
 What a tune takes from the radio at the start, it gives back at the end: the snapshot and
 restore of spe/tci.py and spe/flex.py, whose frequencies pass through binary floating point.
 A floating-point operation is its exact result rounded once; IEEE 754-2019 section 4.3.1,
 round to nearest in double precision, bounds that rounding by a relative 2^-53 and leaves
 the integers up to 2^53 alone.
 */
module VfoRoundTrip {
  import opened Sequences
  import opened Text
  import opened EventCaches

  const P51: nat := 0x8_0000_0000_0000
  const P53: real := 9007199254740992.0

  function Abs(x: real): real {
    if x < 0.0 then -x else x
  }

  /** `d` is a double nearest to `x`, as far as the round trips need to know. */
  predicate Rounded(x: real, d: real) {
    && Abs(d - x) * P53 <= Abs(x)
    && (x == x.Floor as real && Abs(x) <= P53 ==> d == x)
  }

  /** `n` is an integer nearest to `x`. */
  predicate Nearest(x: real, n: int) {
    Abs(n as real - x) <= 0.5
  }

  function Pow2(n: nat): (p: real)
    ensures p >= 1.0
  {
    if n == 0 then 1.0 else 2.0 * Pow2(n - 1)
  }

  /** Zero and the magnitudes of normal doubles, where rounding neither underflows nor
      overflows. */
  predicate InNormalRange(x: real) {
    x == 0.0 || 1.0 / Pow2(1022) <= Abs(x) <= Pow2(1023)
  }

  ghost predicate RoundsLikeDoubles(fl: real -> real) {
    forall x :: InNormalRange(x) ==> Rounded(x, fl(x))
  }

  lemma {:induction false} Pow2Grows(m: nat, n: nat)
    requires m <= n
    ensures 1.0 <= Pow2(m) <= Pow2(n)
    decreases n
  {
    if m < n {
      Pow2Grows(m, n - 1);
    } else if n > 0 {
      Pow2Grows(m - 1, n - 1);
    }
  }

  lemma SixtyFour()
    ensures Pow2(64) == 18446744073709551616.0
  {
    assert Pow2(8) == 256.0;
    assert Pow2(16) == 65536.0;
    assert Pow2(24) == 16777216.0;
    assert Pow2(32) == 4294967296.0;
    assert Pow2(40) == 1099511627776.0;
    assert Pow2(48) == 281474976710656.0;
    assert Pow2(56) == 72057594037927936.0;
  }

  /** Frequencies, in Hz or MHz, are far from either end. */
  lemma FrequenciesAreNormal(x: real)
    requires x == 0.0 || 0.0000001 <= x <= 18446744073709551616.0
    ensures InNormalRange(x)
  {
    SixtyFour();
    Pow2Grows(64, 1022);
    Pow2Grows(64, 1023);
    var p := Pow2(1022);
    assert 1.0 / p <= 0.0000001 by {
      assert p >= 18446744073709551616.0;
      assert 1.0 / p * p == 1.0;
    }
  }

  ghost predicate RoundsToNearest(near: real -> int) {
    forall x :: Nearest(x, near(x))
  }

  // ------------------------------------------------------------ TCI: Hz to MHz and back

  datatype Snapshot = Snapshot(channel: int, mHz: Option<real>, mode: Option<string>)

  function HzToMHz(text: string, fl: real -> real): Option<real> {
    match ParseDecimal(text)
    case None => None
    case Some(hz) => Some(fl(fl(hz) / 1000000.0))
  }

  /** A frequency that does not read as a number counts as unknown. */
  function TciSnapshot(c: Cache, n: int, fl: real -> real): Option<Snapshot> {
    var text, mode := Get(c, n, "freq"), Get(c, n, "mode");
    var mHz := if text.Some? then HzToMHz(text.value, fl) else None;
    if mHz.None? && mode.None? then None else Some(Snapshot(n, mHz, mode))
  }

  function MHzToHz(mHz: real, fl: real -> real, near: real -> int): int {
    near(fl(mHz * 1000000.0))
  }

  /** The commands a restore sends. */
  function TciRestore(snap: Option<Snapshot>, fl: real -> real, near: real -> int): seq<string> {
    match snap
    case None => []
    case Some(s) =>
      (if s.mHz.Some? then [VfoCommand(s.channel, MHzToHz(s.mHz.value, fl, near))] else [])
      + (if s.mode.Some? then [ModeCommand(s.channel, s.mode.value)] else [])
  }

  /** Two roundings of the kind move a whole number of Hz by less than half of one. */
  lemma TwoRoundings(h: nat, mHz: real, hz: real, n: int)
    requires h < P51
    requires Rounded(h as real / 1000000.0, mHz) && Rounded(mHz * 1000000.0, hz) && Nearest(hz, n)
    ensures n == h
  {
    var x := h as real;
    assert Abs(mHz * 1000000.0 - x) * P53 <= x;
    assert Abs(hz - mHz * 1000000.0) * P53 <= mHz * 1000000.0;
    assert Abs(hz - x) < 0.5;
  }

  lemma DigitsSum(a: string, b: string)
    requires Digits(a) && Digits(b)
    ensures Digits(a + b)
  {
  }

  lemma Shifted(v: nat, p: nat, w: nat, d: nat)
    ensures 10 * (v * p + w) + d == v * (10 * p) + (10 * w + d)
  {
    assert v * (10 * p) == 10 * (v * p);
  }

  lemma {:induction false} NatValueSum(a: string, b: string)
    requires Digits(a) && Digits(b)
    ensures Digits(a + b) && NatValue(a + b) == NatValue(a) * Pow10(|b|) + NatValue(b)
  {
    hide Digits;
    DigitsSum(a, b);
    if b == "" {
      SumNothing(a);
      assert NatValue(b) == 0 && Pow10(0) == 1;
    } else {
      var s, front, d := a + b, b[..|b| - 1], b[|b| - 1];
      DigitsSplit(front, d, b);
      NatValueSum(a, front);
      assert s[..|s| - 1] == a + front && s[|s| - 1] == d;
      Shifted(NatValue(a), Pow10(|front|), NatValue(front), d as int - '0' as int);
    }
  }

  lemma DigitsSplit(front: string, d: char, s: string)
    requires s == front + [d] && Digits(s)
    ensures Digits(front) && IsDigit(d)
  {
    assert s[|front|] == d;
    forall i | 0 <= i < |front|
      ensures IsDigit(front[i])
    {
      assert s[i] == front[i];
    }
  }

  lemma WholeIsExact(h: nat, d: real)
    requires h < P51 && Rounded(h as real, d)
    ensures d == h as real
  {
  }

  /** The MHz value, scaled back, is still an ordinary number. */
  lemma NearlyWhole(h: nat, mHz: real)
    requires h < P51 && Rounded(h as real / 1000000.0, mHz)
    ensures mHz * 1000000.0 == 0.0 || 0.0000001 <= mHz * 1000000.0 <= 18446744073709551616.0
  {
    if h == 0 {
      assert mHz == 0.0;
    }
  }

  lemma ReportedHzComesBack(h: nat, fl: real -> real, near: real -> int)
    requires h < P51 && RoundsLikeDoubles(fl) && RoundsToNearest(near)
    ensures HzToMHz(NatText(h), fl).Some?
    ensures MHzToHz(HzToMHz(NatText(h), fl).value, fl, near) == h
  {
    hide ParseDecimal, NatText, Rounded, Nearest, InNormalRange;
    ParseWhole(h);
    var x := h as real;
    FrequenciesAreNormal(x);
    assert Rounded(x, fl(x));
    WholeIsExact(h, fl(x));
    FrequenciesAreNormal(x / 1000000.0);
    var mHz := fl(x / 1000000.0);
    assert Rounded(x / 1000000.0, mHz);
    NearlyWhole(h, mHz);
    FrequenciesAreNormal(mHz * 1000000.0);
    var hz := fl(mHz * 1000000.0);
    assert Rounded(mHz * 1000000.0, hz);
    assert Nearest(hz, near(hz));
    TwoRoundings(h, mHz, hz, near(hz));
  }

  /** However much text the radio has sent: a restore sends back exactly the whole number of Hz
      it said last, for any below 2^51, and the mode it said last, letter for letter, or none if
      it never said one. */
  lemma TciRestoreIsExact(parts: seq<string>, n: int, h: nat, k: nat, mode: Option<string>, j: nat,
                          fl: real -> real, near: real -> int)
    requires h < P51 && RoundsLikeDoubles(fl) && RoundsToNearest(near)
    requires LastSays(parts, k, n, "freq", NatText(h))
    requires mode.Some? ==> LastSays(parts, j, n, "mode", mode.value)
    requires mode.None? ==> forall i :: 0 <= i < |parts| ==> SilentOn(Strip(parts[i]), n, "mode")
    ensures TciRestore(TciSnapshot(DispatchAll(TCI_START, parts).vfo, n, fl), fl, near) ==
            [VfoCommand(n, h)] + if mode.Some? then [ModeCommand(n, mode.value)] else []
  {
    hide HzToMHz, MHzToHz, VfoCommand, ModeCommand, LastSays, SilentOn, DispatchAll;
    VfoFieldIsLastSaid(parts, k, n, "freq", NatText(h));
    if mode.Some? {
      VfoFieldIsLastSaid(parts, j, n, "mode", mode.value);
    } else {
      VfoFieldUnsaid(parts, n, "mode");
    }
    ReportedHzComesBack(h, fl, near);
  }

  lemma JoinThree(a: string, b: string, c: string, sep: char)
    ensures Join([a, b, c], sep) == a + [sep] + (b + [sep] + c)
  {
    assert [a, b, c][1..] == [b, c] && [b, c][1..] == [c];
    assert Join([c], sep) == c;
    assert Join([b, c], sep) == b + [sep] + c;
  }

  lemma JoinTwo(a: string, b: string, sep: char)
    ensures Join([a, b], sep) == a + [sep] + b
  {
    assert [a, b][1..] == [b];
    assert Join([b], sep) == b;
  }

  /** A line of one command is received as just that command. */
  lemma LineIsReceived(s: Tci, line: string)
    requires Free(line, ';') && Tight(line)
    ensures Receive(s, line + ";") == Dispatch(s, line)
  {
    hide Split, Dispatch, Strip;
    NothingAfterTerminator(s, line);
    SplitFree(line, ';');
    StripTight(line);
    assert [line][..0] == [];
    assert DispatchAll(s, []) == s;
  }

  lemma VfoLineIsPlain(n: int, channel: int, text: string)
    requires Argument(text)
    ensures Free(VfoLine(n, channel, text), ';') && Tight(VfoLine(n, channel, text))
  {
    hide IntText, Join;
    IntTextIsArgument(n);
    IntTextIsArgument(channel);
    JoinThree(IntText(n), IntText(channel), text, ',');
    var line := VfoLine(n, channel, text);
    assert line == "vfo:" + IntText(n) + "," + IntText(channel) + "," + text;
    assert line[|line| - 1] == text[|text| - 1];
  }

  lemma ModeLineIsPlain(n: int, mode: string)
    requires Argument(mode)
    ensures Free(ModeLine(n, mode), ';') && Tight(ModeLine(n, mode))
  {
    hide IntText, Join;
    IntTextIsArgument(n);
    JoinTwo(IntText(n), mode, ',');
    var line := ModeLine(n, mode);
    assert line == "modulation:" + IntText(n) + "," + mode;
    assert line[|line| - 1] == mode[|mode| - 1];
  }

  lemma ZeroText()
    ensures IntText(0) == "0"
  {
  }

  /** A frequency command, heard back from the radio, is cached as the frequency it sets, and
      changes nothing else. */
  lemma VfoCommandIsHeard(s: Tci, n: int, hz: int)
    ensures Receive(s, VfoCommand(n, hz)) == s.(vfo := Put(s.vfo, Write(n, "freq", IntText(hz))))
  {
    hide Dispatch, Receive, IntText, Join;
    ZeroText();
    IntTextIsArgument(hz);
    VfoLineIsPlain(n, 0, IntText(hz));
    assert VfoCommand(n, hz) == VfoLine(n, 0, IntText(hz)) + ";";
    LineIsReceived(s, VfoLine(n, 0, IntText(hz)));
    VfoLineMeans(s, n, 0, IntText(hz));
  }

  /** A mode command likewise. */
  lemma ModeCommandIsHeard(s: Tci, n: int, mode: string)
    requires Argument(mode)
    ensures Receive(s, ModeCommand(n, mode)) == s.(vfo := Put(s.vfo, Write(n, "mode", mode)))
  {
    hide Dispatch, Receive, IntText, Join;
    ModeLineIsPlain(n, mode);
    assert ModeCommand(n, mode) == ModeLine(n, mode) + ";";
    LineIsReceived(s, ModeLine(n, mode));
    ModeLineMeans(s, n, mode);
  }

  // ------------------------------------------------------------ Flex: text to MHz and back

  /** The last `k` decimal digits, leading zeros kept. */
  function Padded(n: nat, k: nat): (s: string)
    ensures |s| == k && Digits(s)
  {
    if k == 0 then "" else Padded(n / 10, k - 1) + [DigitChar(n % 10)]
  }

  /** `f"{x:.6f}"` for the x nearest to `micros` millionths. */
  function SixDecimals(micros: nat): string {
    NatText(micros / 1000000) + ['.'] + Padded(micros % 1000000, 6)
  }

  /** The text `set_slice_freq` sends for the value of a text the radio reported. */
  function FlexResent(text: string, fl: real -> real, near: real -> int): Option<string> {
    match ParseDecimal(text)
    case None => None
    case Some(x) =>
      var micros := near(fl(x) * 1000000.0);
      if micros < 0 then Some("-" + SixDecimals(-micros)) else Some(SixDecimals(micros))
  }

  lemma {:induction false} PaddedValue(n: nat, k: nat)
    requires n < Pow10(k)
    ensures NatValue(Padded(n, k)) == n
  {
    if k > 0 {
      PaddedValue(n / 10, k - 1);
      var s := Padded(n, k);
      assert s[..|s| - 1] == Padded(n / 10, k - 1);
    }
  }

  lemma {:induction false} PaddedBack(s: string)
    requires Digits(s)
    ensures NatValue(s) < Pow10(|s|) && Padded(NatValue(s), |s|) == s
  {
    if s != "" {
      var front, d := s[..|s| - 1], s[|s| - 1];
      PaddedBack(front);
      assert IsDigit(d);
      assert NatValue(s) / 10 == NatValue(front) && DigitChar(NatValue(s) % 10) == d;
      assert front + [d] == s;
    }
  }

  /** A numeral with no needless leading zero. */
  predicate Plain(s: string) {
    Digits(s) && s != "" && (s[0] == '0' ==> |s| == 1)
  }

  lemma {:induction false} PlainBack(s: string)
    requires Plain(s)
    ensures NatText(NatValue(s)) == s && (s[0] != '0' ==> NatValue(s) > 0)
  {
    var front, d := s[..|s| - 1], s[|s| - 1];
    assert IsDigit(d) && front + [d] == s;
    if |s| == 1 {
      assert NatValue(front) == 0;
    } else {
      PlainBack(front);
      assert NatValue(s) / 10 == NatValue(front) && DigitChar(NatValue(s) % 10) == d;
    }
  }

  /** Six decimals as a Flex writes them. */
  predicate Canonical(s: string) {
    |s| >= 8 && Plain(s[..|s| - 7]) && s[|s| - 7] == '.' && Digits(s[|s| - 6..])
  }

  function Micros(s: string): nat
    requires Canonical(s)
  {
    NatValue(s[..|s| - 7]) * 1000000 + NatValue(s[|s| - 6..])
  }

  lemma Pow10Six()
    ensures Pow10(6) == 1000000
  {
    assert Pow10(0) == 1 && Pow10(1) == 10 && Pow10(2) == 100 && Pow10(3) == 1000;
  }

  lemma CanonicalBack(s: string)
    requires Canonical(s)
    ensures SixDecimals(Micros(s)) == s
  {
    hide NatText, NatValue, Padded, Digits, Plain;
    var whole, part := s[..|s| - 7], s[|s| - 6..];
    assert s == whole + ['.'] + part;
    PlainBack(whole);
    PaddedBack(part);
    Pow10Six();
    assert Micros(s) / 1000000 == NatValue(whole) && Micros(s) % 1000000 == NatValue(part);
  }

  lemma CanonicalValue(s: string)
    requires Canonical(s)
    ensures ParseDecimal(s) == Some(Micros(s) as real / 1000000.0)
  {
    hide NatText, NatValue, Padded, Split, Strip, SixDecimals;
    var whole, part := s[..|s| - 7], s[|s| - 6..];
    assert s == whole + ['.'] + part;
    DigitsHaveNoPoint(whole);
    DigitsHaveNoPoint(part);
    assert IsDigit(whole[0]) && IsDigit(part[5]);
    StripTight(s);
    SplitFirst(whole, part, '.');
    SplitFree(part, '.');
    NatValueSum(whole, part);
    Pow10Six();
  }

  /** One rounding moves a number of millionths below 10^15 by less than half of one. */
  lemma OneRounding(m: nat, d: real, n: int)
    requires m < 1_000_000_000_000_000
    requires Rounded(m as real / 1000000.0, d) && Nearest(d * 1000000.0, n)
    ensures n == m
  {
    var x := m as real;
    assert Abs(d * 1000000.0 - x) * P53 <= x;
  }

  lemma CanonicalResent(text: string, fl: real -> real, near: real -> int)
    requires RoundsLikeDoubles(fl) && RoundsToNearest(near)
    requires Canonical(text) && Micros(text) < 1_000_000_000_000_000
    ensures FlexResent(text, fl, near) == Some(text)
  {
    hide ParseDecimal, SixDecimals, Canonical, Micros, InNormalRange;
    CanonicalValue(text);
    CanonicalBack(text);
    var x := Micros(text) as real / 1000000.0;
    FrequenciesAreNormal(x);
    assert Rounded(x, fl(x)) && Nearest(fl(x) * 1000000.0, near(fl(x) * 1000000.0));
    OneRounding(Micros(text), fl(x), near(fl(x) * 1000000.0));
  }

  datatype SliceSnapshot = SliceSnapshot(slice: int, freq: Option<string>, mode: Option<string>)

  /** The slice's fields as the radio wrote them, or nothing if it has reported neither. */
  function FlexSnapshot(c: Cache, n: int): Option<SliceSnapshot> {
    var freq, mode := Get(c, n, "RF_frequency"), Get(c, n, "mode");
    if freq.None? && mode.None? then None else Some(SliceSnapshot(n, freq, mode))
  }

  function TuneSlice(n: int, freq: string): string {
    "slice t " + IntText(n) + " " + freq
  }

  function SetSliceMode(n: int, mode: string): string {
    "slice s " + IntText(n) + " mode=" + mode
  }

  /** The commands a restore sends; None is a frequency that does not read as a number, which
      raises before anything is sent. */
  function FlexRestore(snap: Option<SliceSnapshot>, fl: real -> real, near: real -> int): Option<seq<string>> {
    match snap
    case None => Some([])
    case Some(s) =>
      var mode := if s.mode.Some? then [SetSliceMode(s.slice, s.mode.value)] else [];
      if s.freq.None? then Some(mode)
      else match FlexResent(s.freq.value, fl, near)
        case None => None
        case Some(freq) => Some([TuneSlice(s.slice, freq)] + mode)
  }

  /** A token of message `k` says `value` about a field of slice `n`, and nothing after it says
      anything. */
  predicate SliceSays(messages: seq<string>, k: nat, n: int, tokens: seq<string>, i: nat, key: string, value: string) {
    && k < |messages| && AllWords(tokens) && i < |tokens| && messages[k] == SliceMessage(n, tokens)
    && tokens[i] == key + "=" + value && (forall j :: i < j < |tokens| ==> !Assigns(tokens[j], key))
    && (forall j :: k < j < |messages| ==> !Mentions(messages[j], n, key))
  }

  /** The frequency a slice said last, canonical and below 10^9 MHz, and the mode it said last are
      sent back letter for letter, whatever else the radio reported before and after. */
  lemma FlexRestoreIsExact(messages: seq<string>, n: int, k: nat, tokens: seq<string>, i: nat, text: string,
                           l: nat, others: seq<string>, j: nat, mode: string, fl: real -> real, near: real -> int)
    requires RoundsLikeDoubles(fl) && RoundsToNearest(near)
    requires SliceSays(messages, k, n, tokens, i, "RF_frequency", text)
    requires SliceSays(messages, l, n, others, j, "mode", mode)
    requires Canonical(text) && Micros(text) < 1_000_000_000_000_000
    ensures FlexRestore(FlexSnapshot(SliceCacheAfter(messages), n), fl, near) ==
            Some(["slice t " + IntText(n) + " " + text, "slice s " + IntText(n) + " mode=" + mode])
  {
    hide Canonical, Micros, Mentions, Assigns, SliceMessage, AllWords, FlexResent, IntText, SliceCacheAfter;
    SliceFieldIsLastSaid(messages, k, n, tokens, i, "RF_frequency", text);
    SliceFieldIsLastSaid(messages, l, n, others, j, "mode", mode);
    CanonicalResent(text, fl, near);
    var f, m := TuneSlice(n, text), SetSliceMode(n, mode);
    assert [f] + [m] == [f, m];
    assert FlexSnapshot(SliceCacheAfter(messages), n) == Some(SliceSnapshot(n, Some(text), Some(mode)));
  }
}
