/**
 The few string operations the modelled Python relies on: `strip`, `split` on one
 character, `join`, and decimal numerals. Text is ASCII, so "space" means the ASCII
 characters that `str.isspace` accepts.
 */
module Text {
  import opened Sequences

  datatype Option<+T> = None | Some(value: T)

  predicate IsSpace(c: char) {
    9 <= c as int <= 13 || 28 <= c as int <= 32
  }

  predicate AllSpace(s: string) {
    forall i :: 0 <= i < |s| ==> IsSpace(s[i])
  }

  function TrimLeft(s: string): string {
    if s != "" && IsSpace(s[0]) then TrimLeft(s[1..]) else s
  }

  function TrimRight(s: string): string {
    if s != "" && IsSpace(s[|s| - 1]) then TrimRight(s[..|s| - 1]) else s
  }

  function Strip(s: string): string {
    TrimRight(TrimLeft(s))
  }

  /** Stripping is the identity exactly on text with no space at either end. */
  predicate Tight(s: string) {
    s == "" || (!IsSpace(s[0]) && !IsSpace(s[|s| - 1]))
  }

  lemma StripTight(s: string)
    requires Tight(s)
    ensures Strip(s) == s
  {
  }

  predicate Free(s: string, sep: char) {
    forall i :: 0 <= i < |s| ==> s[i] != sep
  }

  predicate AllFree(parts: seq<string>, sep: char) {
    forall i :: 0 <= i < |parts| ==> Free(parts[i], sep)
  }

  function Split(s: string, sep: char): (parts: seq<string>)
    ensures |parts| >= 1
  {
    if s == "" then [""]
    else
      var rest := Split(s[1..], sep);
      if s[0] == sep then [""] + rest else [[s[0]] + rest[0]] + rest[1..]
  }

  function Join(parts: seq<string>, sep: char): string
    requires |parts| >= 1
  {
    if |parts| == 1 then parts[0] else parts[0] + [sep] + Join(parts[1..], sep)
  }

  /** A separator-free field in front of a separator comes back as the first part. */
  lemma {:induction false} SplitFirst(field: string, rest: string, sep: char)
    requires Free(field, sep)
    ensures Split(field + [sep] + rest, sep) == [field] + Split(rest, sep)
  {
    var s := field + [sep] + rest;
    if field == "" {
      assert s[1..] == rest;
    } else {
      assert s[1..] == field[1..] + [sep] + rest;
      assert [field[0]] + field[1..] == field;
      SplitFirst(field[1..], rest, sep);
    }
  }

  lemma {:induction false} SplitFree(field: string, sep: char)
    requires Free(field, sep)
    ensures Split(field, sep) == [field]
  {
    if field != "" {
      SplitFree(field[1..], sep);
      assert [field[0]] + field[1..] == field;
    }
  }

  /** `sep.join` followed by `split(sep)` gives the fields back. */
  lemma {:induction false} SplitJoin(parts: seq<string>, sep: char)
    requires |parts| >= 1 && AllFree(parts, sep)
    ensures Split(Join(parts, sep), sep) == parts
  {
    if |parts| == 1 {
      SplitFree(parts[0], sep);
    } else {
      SplitJoin(parts[1..], sep);
      SplitFirst(parts[0], Join(parts[1..], sep), sep);
    }
  }

  function LowerChar(c: char): char {
    if 'A' <= c <= 'Z' then (c as int + 32) as char else c
  }

  function Lower(s: string): string {
    seq(|s|, i requires 0 <= i < |s| => LowerChar(s[i]))
  }

  /** One more character in front of split text. */
  function Prepend(c: char, sep: char, parts: seq<string>): seq<string>
    requires |parts| >= 1
  {
    if c == sep then [""] + parts else [[c] + parts[0]] + parts[1..]
  }

  lemma PrependSum(c: char, sep: char, a: seq<string>, b: seq<string>)
    requires |a| >= 1
    ensures Prepend(c, sep, a + b) == Prepend(c, sep, a) + b
  {
    assert (a + b)[0] == a[0];
    if c == sep {
      SumAssociates([""], a, b);
    } else {
      DropOfSum(a, b, 1);
      SumAssociates([[c] + a[0]], a[1..], b);
    }
  }

  lemma SplitCons(c: char, s: string, sep: char)
    ensures Split([c] + s, sep) == Prepend(c, sep, Split(s, sep))
  {
    assert ([c] + s)[1..] == s;
  }

  /** Splitting what a separator joins is splitting the two sides. */
  lemma {:induction false} SplitSum(a: string, b: string, sep: char)
    ensures Split(a + [sep] + b, sep) == Split(a, sep) + Split(b, sep)
  {
    hide Split, Prepend;
    if a == "" {
      SplitFree("", sep);
      assert a + [sep] + b == [sep] + b;
      SplitFirst("", b, sep);
      assert "" + [sep] + b == [sep] + b;
    } else {
      assert a + [sep] + b == [a[0]] + (a[1..] + [sep] + b);
      assert a == [a[0]] + a[1..];
      SplitSum(a[1..], b, sep);
      SplitCons(a[0], a[1..], sep);
      SplitCons(a[0], a[1..] + [sep] + b, sep);
      PrependSum(a[0], sep, Split(a[1..], sep), Split(b, sep));
    }
  }

  /** `partition`: splits at the first separator only. */
  function Cut(s: string, sep: char): (string, Option<string>) {
    if s == "" then ("", None)
    else if s[0] == sep then ("", Some(s[1..]))
    else
      var (head, tail) := Cut(s[1..], sep);
      ([s[0]] + head, tail)
  }

  lemma {:induction false} CutFirst(head: string, tail: string, sep: char)
    requires Free(head, sep)
    ensures Cut(head + [sep] + tail, sep) == (head, Some(tail))
  {
    var s := head + [sep] + tail;
    if head != "" {
      CutFirst(head[1..], tail, sep);
      assert s[1..] == head[1..] + [sep] + tail;
      assert [head[0]] + head[1..] == head;
    }
  }

  /** `split()` on runs of white space. */
  function Word(s: string): (r: (string, string))
    ensures s == r.0 + r.1 && (s != "" && !IsSpace(s[0]) ==> r.0 != "")
  {
    if s == "" || IsSpace(s[0]) then ("", s)
    else
      var (w, rest) := Word(s[1..]);
      ([s[0]] + w, rest)
  }

  function Words(s: string): seq<string>
    decreases |s|
  {
    if s == "" then []
    else if IsSpace(s[0]) then Words(s[1..])
    else [Word(s).0] + Words(Word(s).1)
  }

  predicate IsWord(w: string) {
    w != "" && forall i :: 0 <= i < |w| ==> !IsSpace(w[i])
  }

  predicate AllWords(ws: seq<string>) {
    forall i :: 0 <= i < |ws| ==> IsWord(ws[i])
  }

  lemma {:induction false} WordThenSpace(w: string, rest: string)
    requires forall i :: 0 <= i < |w| ==> !IsSpace(w[i])
    requires rest == "" || IsSpace(rest[0])
    ensures Word(w + rest) == (w, rest)
  {
    if w == "" {
      assert w + rest == rest;
    } else {
      assert (w + rest)[1..] == w[1..] + rest;
      WordThenSpace(w[1..], rest);
      assert [w[0]] + w[1..] == w;
    }
  }

  lemma {:induction false} WordsOfJoin(ws: seq<string>)
    requires |ws| >= 1 && AllWords(ws)
    ensures Words(Join(ws, ' ')) == ws
  {
    if |ws| == 1 {
      assert ws[0] + "" == ws[0];
      WordThenSpace(ws[0], "");
      assert Words("") == [];
    } else {
      var rest := [' '] + Join(ws[1..], ' ');
      assert Join(ws, ' ') == ws[0] + rest;
      WordThenSpace(ws[0], rest);
      assert rest[1..] == Join(ws[1..], ' ');
      WordsOfJoin(ws[1..]);
    }
  }

  function UpperChar(c: char): char {
    if 'a' <= c <= 'z' then (c as int - 32) as char else c
  }

  function Upper(s: string): string {
    seq(|s|, i requires 0 <= i < |s| => UpperChar(s[i]))
  }

  // ---------------------------------------------------------------- numerals

  predicate IsDigit(c: char) {
    '0' <= c <= '9'
  }

  predicate Digits(s: string) {
    forall i :: 0 <= i < |s| ==> IsDigit(s[i])
  }

  function DigitChar(d: nat): (c: char)
    requires d < 10
    ensures IsDigit(c) && c as int - '0' as int == d
  {
    ('0' as int + d) as char
  }

  /** The decimal numeral Python's `str` writes for a natural number. */
  function NatText(n: nat): (s: string)
    ensures s != "" && Digits(s)
  {
    if n < 10 then [DigitChar(n)] else NatText(n / 10) + [DigitChar(n % 10)]
  }

  function NatValue(s: string): nat
    requires Digits(s)
  {
    if s == "" then 0 else 10 * NatValue(s[..|s| - 1]) + (s[|s| - 1] as int - '0' as int)
  }

  lemma {:induction false} NatRoundTrip(n: nat)
    ensures NatValue(NatText(n)) == n
  {
    if n < 10 {
      assert NatText(n)[..0] == "";
    } else {
      NatRoundTrip(n / 10);
      var s := NatText(n);
      assert s[..|s| - 1] == NatText(n / 10);
    }
  }

  function IntText(n: int): string {
    if n < 0 then "-" + NatText(-n) else NatText(n)
  }

  predicate DigitGroups(parts: seq<string>) {
    forall i :: 0 <= i < |parts| ==> parts[i] != "" && Digits(parts[i])
  }

  lemma {:induction false} DigitsOfGroups(parts: seq<string>)
    requires DigitGroups(parts)
    ensures Digits(Concat(parts))
  {
    if parts != [] {
      DigitsOfGroups(parts[1..]);
    }
  }

  /** `int(text)`: an optional sign and digits, which single underscores may group. */
  function ParseInt(text: string): Option<int> {
    var t := Strip(text);
    var signed := t != "" && (t[0] == '+' || t[0] == '-');
    var groups := Split(if signed then t[1..] else t, '_');
    if !DigitGroups(groups) then None
    else
      DigitsOfGroups(groups);
      var n: int := NatValue(Concat(groups));
      Some(if signed && t[0] == '-' then -n else n)
  }

  lemma DigitsAreTight(s: string)
    requires Digits(s) && s != ""
    ensures Free(s, '_') && Tight(s) && s[0] != '+' && s[0] != '-'
  {
    assert IsDigit(s[0]) && IsDigit(s[|s| - 1]);
    forall i | 0 <= i < |s|
      ensures s[i] != '_'
    {
      assert IsDigit(s[i]);
    }
  }

  lemma DigitsAreOneGroup(digits: string)
    requires Digits(digits) && digits != ""
    ensures Split(digits, '_') == [digits] && DigitGroups([digits]) && Concat([digits]) == digits
  {
    DigitsAreTight(digits);
    SplitFree(digits, '_');
    assert Concat([digits]) == digits + Concat([]) == digits;
  }

  /** Python's `int` reads back what `str` wrote. */
  lemma IntRoundTrip(n: int)
    ensures ParseInt(IntText(n)) == Some(n)
  {
    hide NatText, NatValue, Split, Concat, Strip, Digits;
    var m: nat := if n < 0 then -n else n;
    var digits, text := NatText(m), IntText(n);
    NatRoundTrip(m);
    DigitsAreTight(digits);
    DigitsAreOneGroup(digits);
    StripTight(text);
    if n < 0 {
      assert text[1..] == digits;
    }
  }

  function Pow10(n: nat): (p: nat)
    ensures p >= 1
  {
    if n == 0 then 1 else 10 * Pow10(n - 1)
  }

  /** `float(text)` for plain decimal text: an optional sign, digits, at most one point. */
  function ParseDecimal(text: string): Option<real> {
    var t := Strip(text);
    var body := if t != "" && (t[0] == '+' || t[0] == '-') then t[1..] else t;
    var parts := Split(body, '.');
    var digits := if |parts| == 2 then parts[0] + parts[1] else parts[0];
    if |parts| > 2 || digits == "" || !Digits(digits) then None
    else
      var magnitude := NatValue(digits) as real
                       / Pow10(if |parts| == 2 then |parts[1]| else 0) as real;
      Some(if t[0] == '-' then -magnitude else magnitude)
  }

  lemma DigitsHaveNoPoint(s: string)
    requires Digits(s)
    ensures Free(s, '.') && Tight(s)
  {
    forall i | 0 <= i < |s|
      ensures s[i] != '.'
    {
      assert IsDigit(s[i]);
    }
    if s != "" {
      assert IsDigit(s[0]) && IsDigit(s[|s| - 1]);
    }
  }

  /** Plain digits read as the number they write. */
  lemma ParseDigits(s: string)
    requires Digits(s) && s != ""
    ensures ParseDecimal(s) == Some(NatValue(s) as real)
  {
    hide Split, Strip, Digits, NatValue;
    DigitsHaveNoPoint(s);
    DigitsAreTight(s);
    StripTight(s);
    SplitFree(s, '.');
    assert Pow10(0) == 1;
  }

  lemma ParseWhole(n: nat)
    ensures ParseDecimal(NatText(n)) == Some(n as real)
  {
    NatRoundTrip(n);
    ParseDigits(NatText(n));
  }
}
