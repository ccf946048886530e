/**
 Which release is newer, and what the update checker remembers of a run of checks
 (spe/update_check.py).
 */
module Releases {
  import opened Sequences
  import opened Text

  type Version = seq<nat>

  // ------------------------------------------------------------ reading a version

  function Run(s: string): (r: (string, string))
    ensures s == r.0 + r.1 && Digits(r.0) && (s != "" && IsDigit(s[0]) ==> r.0 != "")
    ensures r.1 != "" ==> !IsDigit(r.1[0])
  {
    if s == "" || !IsDigit(s[0]) then ("", s)
    else
      var (run, rest) := Run(s[1..]);
      ([s[0]] + run, rest)
  }

  /** The runs of digits, as numbers. */
  function Numbers(s: string): Version
    decreases |s|
  {
    if s == "" then []
    else if IsDigit(s[0]) then [NatValue(Run(s).0)] + Numbers(Run(s).1)
    else Numbers(s[1..])
  }

  /** `parse_version`: one leading v is dropped, then everything but digits separates. */
  function ParseVersion(text: string): Version {
    var s := Strip(text);
    Numbers(if s != "" && (s[0] == 'v' || s[0] == 'V') then s[1..] else s)
  }

  function NumberTexts(v: Version): (r: seq<string>)
    ensures |r| == |v| && forall i :: 0 <= i < |r| ==> r[i] == NatText(v[i])
  {
    seq(|v|, i requires 0 <= i < |v| => NatText(v[i]))
  }

  function Dotted(v: Version): string
    requires v != []
  {
    Join(NumberTexts(v), '.')
  }

  lemma {:induction false} RunThen(a: string, b: string)
    requires Digits(a) && (b == "" || !IsDigit(b[0]))
    ensures Run(a + b) == (a, b)
  {
    if a == "" {
      assert a + b == b;
    } else {
      assert (a + b)[1..] == a[1..] + b && IsDigit(a[0]);
      assert forall i :: 0 <= i < |a[1..]| ==> a[1..][i] == a[i + 1];
      RunThen(a[1..], b);
      assert [a[0]] + a[1..] == a;
    }
  }

  lemma NumbersOfOne(digits: string)
    requires Digits(digits) && digits != ""
    ensures Numbers(digits) == [NatValue(digits)]
  {
    RunThen(digits, "");
    assert digits + "" == digits && IsDigit(digits[0]);
    assert Numbers("") == [];
  }

  lemma NumbersOfMore(digits: string, rest: string)
    requires Digits(digits) && digits != ""
    ensures Numbers(digits + (['.'] + rest)) == [NatValue(digits)] + Numbers(rest)
  {
    var more := ['.'] + rest;
    var s := digits + more;
    assert IsDigit(digits[0]) && s[0] == digits[0];
    RunThen(digits, more);
    TailOfCons('.', rest);
    assert Numbers(more) == Numbers(rest);
  }

  lemma {:induction false} NumbersOfDotted(v: Version)
    requires v != []
    ensures Numbers(Dotted(v)) == v
    ensures Dotted(v) != "" && IsDigit(Dotted(v)[0]) && IsDigit(Dotted(v)[|Dotted(v)| - 1])
  {
    hide NatText, NatValue, Numbers;
    var texts := NumberTexts(v);
    var first := texts[0];
    NatRoundTrip(v[0]);
    assert IsDigit(first[0]) && IsDigit(first[|first| - 1]);
    if |v| == 1 {
      NumbersOfOne(first);
    } else {
      assert texts[1..] == NumberTexts(v[1..]);
      assert Dotted(v) == first + (['.'] + Dotted(v[1..]));
      NumbersOfDotted(v[1..]);
      NumbersOfMore(first, Dotted(v[1..]));
    }
  }

  /** A version written with dots, with or without a v, reads back as it is. */
  lemma VersionRoundTrip(v: Version, prefix: string)
    requires v != [] && (prefix == "" || prefix == "v" || prefix == "V")
    ensures ParseVersion(prefix + Dotted(v)) == v
  {
    hide Numbers, Dotted;
    NumbersOfDotted(v);
    StripTight(prefix + Dotted(v));
    if prefix == "" {
      assert prefix + Dotted(v) == Dotted(v);
    } else {
      assert (prefix + Dotted(v))[1..] == Dotted(v);
    }
  }

  // ------------------------------------------------------------ which is newer

  function Padded(v: Version, n: nat): (r: Version)
    requires |v| <= n
    ensures |r| == n && forall i :: 0 <= i < n ==> r[i] == if i < |v| then v[i] else 0
  {
    v + seq(n - |v|, _ => 0)
  }

  /** Python's comparison of tuples of one length, from component `i` on. */
  function Greater(a: Version, b: Version, i: nat): bool
    requires |a| == |b| && i <= |a|
    decreases |a| - i
  {
    if i == |a| then false
    else if a[i] != b[i] then a[i] > b[i]
    else Greater(a, b, i + 1)
  }

  function IsNewer(a: Version, b: Version): bool {
    var n := if |a| > |b| then |a| else |b|;
    Greater(Padded(a, n), Padded(b, n), 0)
  }

  function At(v: Version, i: nat): nat {
    if i < |v| then v[i] else 0
  }

  predicate AlikeBelow(a: Version, b: Version, k: nat) {
    forall j: nat :: j < k ==> At(a, j) == At(b, j)
  }

  /** Higher at the first component that differs. */
  predicate HigherAt(a: Version, b: Version, k: nat) {
    AlikeBelow(a, b, k) && At(a, k) > At(b, k)
  }

  ghost predicate Alike(a: Version, b: Version) {
    forall k: nat :: At(a, k) == At(b, k)
  }

  lemma {:induction false} GreaterMeans(a: Version, b: Version, n: nat, i: nat) returns (k: nat)
    requires |a| <= n && |b| <= n && i <= n && AlikeBelow(a, b, i)
    ensures Greater(Padded(a, n), Padded(b, n), i) ==> HigherAt(a, b, k)
    ensures !Greater(Padded(a, n), Padded(b, n), i) ==> Alike(a, b) || HigherAt(b, a, k)
    decreases n - i
  {
    k := i;
    if i == n {
      assert Alike(a, b);
    } else if At(a, i) == At(b, i) {
      k := GreaterMeans(a, b, n, i + 1);
    }
  }

  /** `is_newer` holds exactly when some component is higher and all before it are equal, a
      missing component counting as 0. */
  lemma NewerMeans(a: Version, b: Version)
    ensures IsNewer(a, b) <==> exists k: nat :: HigherAt(a, b, k)
    ensures !IsNewer(a, b) && !IsNewer(b, a) <==> Alike(a, b)
  {
    var n := if |a| > |b| then |a| else |b|;
    var k := GreaterMeans(a, b, n, 0);
    var j := GreaterMeans(b, a, n, 0);
    forall x: nat, y: nat
      ensures !(HigherAt(a, b, x) && HigherAt(b, a, y))
    {
      NotBoth(a, b, x, y);
    }
    if Alike(a, b) {
      forall x: nat
        ensures !HigherAt(a, b, x) && !HigherAt(b, a, x)
      {
        assert At(a, x) == At(b, x);
      }
    }
  }

  lemma NotBoth(a: Version, b: Version, x: nat, y: nat)
    ensures !(HigherAt(a, b, x) && HigherAt(b, a, y))
  {
    if x < y {
      assert AlikeBelow(b, a, y) ==> At(b, x) == At(a, x);
    } else if y < x {
      assert AlikeBelow(a, b, x) ==> At(a, y) == At(b, y);
    }
  }

  lemma HigherChain(a: Version, b: Version, c: Version, x: nat, y: nat)
    requires HigherAt(a, b, x) && HigherAt(b, c, y)
    ensures HigherAt(a, c, if x < y then x else y)
  {
  }

  lemma HigherLike(a: Version, b: Version, c: Version, x: nat)
    requires Alike(b, c)
    ensures HigherAt(a, b, x) <==> HigherAt(a, c, x)
    ensures HigherAt(b, a, x) <==> HigherAt(c, a, x)
  {
    assert At(b, x) == At(c, x);
    assert forall j: nat :: j < x ==> At(b, j) == At(c, j);
  }

  /** `is_newer` is a strict weak order: never both ways, transitive, and versions that tie
      compare alike with every third. */
  lemma NewerIsStrictWeakOrder(a: Version, b: Version, c: Version)
    ensures !(IsNewer(a, b) && IsNewer(b, a)) && !IsNewer(a, a)
    ensures IsNewer(a, b) && IsNewer(b, c) ==> IsNewer(a, c)
    ensures !IsNewer(b, c) && !IsNewer(c, b) ==>
              (IsNewer(a, b) <==> IsNewer(a, c)) && (IsNewer(b, a) <==> IsNewer(c, a))
  {
    hide HigherAt, IsNewer, Alike;
    NewerMeans(a, b);
    NewerMeans(b, a);
    NewerMeans(b, c);
    NewerMeans(a, c);
    NewerMeans(c, a);
    NewerMeans(a, a);
    AlikeItself(a);
    forall x: nat, y: nat
      ensures !(HigherAt(a, b, x) && HigherAt(b, a, y))
    {
      NotBoth(a, b, x, y);
    }
    if IsNewer(a, b) && IsNewer(b, c) {
      var x: nat :| HigherAt(a, b, x);
      var y: nat :| HigherAt(b, c, y);
      HigherChain(a, b, c, x, y);
    }
    if Alike(b, c) {
      forall x: nat
        ensures HigherAt(a, b, x) <==> HigherAt(a, c, x)
        ensures HigherAt(b, a, x) <==> HigherAt(c, a, x)
      {
        HigherLike(a, b, c, x);
      }
    }
  }

  lemma AlikeItself(a: Version)
    ensures Alike(a, a)
  {
  }

  /** A version without its trailing zeros. */
  function Trimmed(v: Version): (r: Version)
    ensures r == [] || r[|r| - 1] != 0
  {
    if v != [] && v[|v| - 1] == 0 then Trimmed(v[..|v| - 1]) else v
  }

  lemma {:induction false} TrimmedAlike(v: Version)
    ensures Alike(v, Trimmed(v))
  {
    if v != [] && v[|v| - 1] == 0 {
      var front := v[..|v| - 1];
      TrimmedAlike(front);
      forall k: nat
        ensures At(v, k) == At(Trimmed(v), k)
      {
        assert At(front, k) == At(Trimmed(v), k);
      }
    }
  }

  lemma TightVersionsEqual(a: Version, b: Version)
    requires Alike(a, b)
    requires a == [] || a[|a| - 1] != 0
    requires b == [] || b[|b| - 1] != 0
    ensures a == b
  {
    NotLonger(a, b);
    NotLonger(b, a);
    forall i | 0 <= i < |a|
      ensures a[i] == b[i]
    {
      assert At(a, i) == At(b, i);
    }
  }

  lemma NotLonger(a: Version, b: Version)
    requires Alike(a, b) && (a == [] || a[|a| - 1] != 0)
    ensures |a| <= |b|
  {
    if a != [] {
      assert At(a, |a| - 1) == At(b, |a| - 1);
    }
  }

  /** Two versions tie exactly when they are equal up to trailing zeros. */
  lemma TiesAreEqualVersions(a: Version, b: Version)
    ensures !IsNewer(a, b) && !IsNewer(b, a) <==> Trimmed(a) == Trimmed(b)
  {
    hide IsNewer, Trimmed, Alike;
    NewerMeans(a, b);
    TrimmedAlike(a);
    TrimmedAlike(b);
    AlikeJoins(a, Trimmed(a), b, Trimmed(b));
    if Alike(a, b) {
      TightVersionsEqual(Trimmed(a), Trimmed(b));
    } else if Trimmed(a) == Trimmed(b) {
      AlikeItself(Trimmed(a));
    }
  }

  lemma AlikeJoins(a: Version, ta: Version, b: Version, tb: Version)
    requires Alike(a, ta) && Alike(b, tb)
    ensures Alike(a, b) <==> Alike(ta, tb)
  {
    forall k: nat
      ensures At(a, k) == At(ta, k) && At(b, k) == At(tb, k)
    {
    }
    if Alike(a, b) {
      forall k: nat
        ensures At(ta, k) == At(tb, k)
      {
        assert At(a, k) == At(b, k);
      }
    }
    if Alike(ta, tb) {
      forall k: nat
        ensures At(a, k) == At(b, k)
      {
        assert At(ta, k) == At(tb, k);
      }
    }
  }

  // ------------------------------------------------------------ a run of checks

  /** What one request brought: an exception, or a JSON object's two fields where they are
      strings. */
  datatype Fetched = Raised | Object(tag: Option<string>, url: Option<string>)

  datatype Release = Release(tag: string, url: string)

  datatype Checked = Checked(fetched: Fetched, at: real)

  const RELEASES_URL := "https://github.com/vu2cpl/spe-remote/releases"
  const FIRST_DELAY := 60.0
  const INTERVAL := 86400.0
  const RETRY := 3600.0

  predicate Usable(f: Fetched) {
    f.Object? && f.tag.Some? && ParseVersion(f.tag.value) != []
  }

  /** Only a link into the project's own release pages is kept. */
  function LinkOf(f: Fetched): string
    requires f.Object?
  {
    if f.url.Some? && RELEASES_URL + "/" <= f.url.value then f.url.value else RELEASES_URL
  }

  datatype Memory = Memory(latest: Option<Release>, checkedAt: Option<real>, logged: seq<string>, delay: real)

  const NOTHING_YET := Memory(None, None, [], FIRST_DELAY)

  predicate IsNews(f: Fetched, current: string)
    requires Usable(f)
  {
    IsNewer(ParseVersion(f.tag.value), ParseVersion(current))
  }

  /** A tag is logged unless it is the one logged last. */
  function Logged(log: seq<string>, tag: string): seq<string> {
    if log != [] && log[|log| - 1] == tag then log else log + [tag]
  }

  function Check(m: Memory, c: Checked, current: string): Memory {
    if !Usable(c.fetched) then m.(delay := RETRY)
    else
      var news := IsNews(c.fetched, current);
      Memory(if news then Some(Release(c.fetched.tag.value, LinkOf(c.fetched))) else None,
             Some(c.at),
             if news then Logged(m.logged, c.fetched.tag.value) else m.logged,
             INTERVAL)
  }

  function After(cs: seq<Checked>, current: string): Memory {
    if cs == [] then NOTHING_YET else Check(After(cs[..|cs| - 1], current), cs[|cs| - 1], current)
  }

  /** The last check that brought a usable tag. */
  function LastUsable(cs: seq<Checked>): (r: Option<Checked>)
    ensures r.Some? ==> r.value in cs && Usable(r.value.fetched)
  {
    if cs == [] then None
    else if Usable(cs[|cs| - 1].fetched) then Some(cs[|cs| - 1])
    else LastUsable(cs[..|cs| - 1])
  }

  /** After any run of checks, what is shown and when it was checked come from the last usable
      tag alone, failures before and after it leaving no mark; and the wait that follows
      depends on nothing but the last outcome. */
  lemma {:induction false} MemoryIsLastUsable(cs: seq<Checked>, current: string)
    ensures var m, last := After(cs, current), LastUsable(cs);
            && m.checkedAt == (if last.Some? then Some(last.value.at) else None)
            && m.latest == (if last.Some? && IsNews(last.value.fetched, current)
                            then Some(Release(last.value.fetched.tag.value, LinkOf(last.value.fetched))) else None)
            && m.delay == (if cs == [] then FIRST_DELAY
                           else if Usable(cs[|cs| - 1].fetched) then INTERVAL else RETRY)
  {
    if cs != [] {
      hide Usable, IsNews, LinkOf;
      MemoryIsLastUsable(cs[..|cs| - 1], current);
    }
  }

  /** A release is shown exactly when the last usable tag is strictly newer than the one
      running; what is shown is that tag, with the link that came with it if it leads below the
      project's release pages, and with those pages otherwise. */
  lemma ShownIsNewer(cs: seq<Checked>, current: string)
    ensures var shown, last := After(cs, current).latest, LastUsable(cs);
            && (shown.Some? <==>
                  last.Some? && IsNewer(ParseVersion(last.value.fetched.tag.value), ParseVersion(current)))
            && (shown.Some? ==>
                  var f := last.value.fetched;
                  && shown.value.tag == f.tag.value
                  && (f.url.Some? && RELEASES_URL + "/" <= f.url.value ==> shown.value.url == f.url.value)
                  && (f.url.None? || !(RELEASES_URL + "/" <= f.url.value) ==> shown.value.url == RELEASES_URL))
  {
    hide IsNewer, ParseVersion;
    MemoryIsLastUsable(cs, current);
  }

  predicate HasDigit(s: string) {
    exists c :: c in s && IsDigit(c)
  }

  /** A check is a success exactly when it brought a tag with a digit in it. */
  lemma UsableMeans(f: Fetched)
    ensures Usable(f) <==> f.Object? && f.tag.Some? && HasDigit(f.tag.value)
  {
    hide Numbers, HasDigit, Strip;
    if f.Object? && f.tag.Some? {
      var s := Strip(f.tag.value);
      var body := if s != "" && (s[0] == 'v' || s[0] == 'V') then s[1..] else s;
      NumbersNeedDigit(body);
      StripKeepsDigits(f.tag.value);
      if body != s {
        assert s == [s[0]] + body;
        NoDigitAhead(s[0], body);
      }
    }
  }

  lemma NoDigitAhead(c: char, s: string)
    requires !IsDigit(c)
    ensures HasDigit([c] + s) <==> HasDigit(s)
  {
    if HasDigit(s) {
      var d :| d in s && IsDigit(d);
      assert d in [c] + s;
    }
  }

  lemma NoDigitBehind(s: string, c: char)
    requires !IsDigit(c)
    ensures HasDigit(s + [c]) <==> HasDigit(s)
  {
    if HasDigit(s) {
      var d :| d in s && IsDigit(d);
      assert d in s + [c];
    }
  }

  lemma {:induction false} NumbersNeedDigit(s: string)
    ensures Numbers(s) != [] <==> HasDigit(s)
    decreases |s|
  {
    if s != "" {
      assert s == [s[0]] + s[1..];
      if IsDigit(s[0]) {
        assert s[0] in s;
      } else {
        NumbersNeedDigit(s[1..]);
        NoDigitAhead(s[0], s[1..]);
      }
    }
  }

  lemma {:induction false} TrimLeftKeepsDigits(s: string)
    ensures HasDigit(TrimLeft(s)) <==> HasDigit(s)
  {
    if s != "" && IsSpace(s[0]) {
      TrimLeftKeepsDigits(s[1..]);
      assert s == [s[0]] + s[1..];
      NoDigitAhead(s[0], s[1..]);
    }
  }

  lemma {:induction false} TrimRightKeepsDigits(s: string)
    ensures HasDigit(TrimRight(s)) <==> HasDigit(s)
  {
    if s != "" && IsSpace(s[|s| - 1]) {
      var front := s[..|s| - 1];
      TrimRightKeepsDigits(front);
      assert s == front + [s[|s| - 1]];
      NoDigitBehind(front, s[|s| - 1]);
    }
  }

  lemma StripKeepsDigits(s: string)
    ensures HasDigit(Strip(s)) <==> HasDigit(s)
  {
    TrimLeftKeepsDigits(s);
    TrimRightKeepsDigits(TrimLeft(s));
  }

  predicate NoEcho(log: seq<string>) {
    forall i :: 0 < i < |log| ==> log[i] != log[i - 1]
  }

  /** No tag is logged twice in a row, and while a newer release is shown it is the one logged
      last. */
  lemma {:induction false} NewsIsLoggedOnce(cs: seq<Checked>, current: string)
    ensures var m := After(cs, current);
            NoEcho(m.logged) &&
            (m.latest.Some? ==> m.logged != [] && m.logged[|m.logged| - 1] == m.latest.value.tag)
  {
    if cs != [] {
      hide Usable, IsNews, LinkOf;
      NewsIsLoggedOnce(cs[..|cs| - 1], current);
    }
  }

  class UpdateChecker {
    const current: string
    var latest: Option<Release>
    var checkedAt: Option<real>
    var loggedTag: Option<string>
    ghost var log: seq<string>

    ghost predicate Valid()
      reads this
    {
      loggedTag == if log == [] then None else Some(log[|log| - 1])
    }

    constructor (current: string)
      ensures Valid() && this.current == current && latest == None && checkedAt == None && log == []
    {
      this.current, latest, checkedAt, loggedTag, log := current, None, None, None, [];
    }

    /** One request; true when it brought a usable tag. */
    method CheckNow(f: Fetched, now: real) returns (ok: bool)
      requires Valid()
      modifies this
      ensures Valid() && ok == Usable(f)
      ensures forall delay ::
                Memory(latest, checkedAt, log, if ok then INTERVAL else RETRY) ==
                Check(Memory(old(latest), old(checkedAt), old(log), delay), Checked(f, now), current)
    {
      hide ParseVersion, IsNewer;
      if f.Raised? || f.tag.None? || ParseVersion(f.tag.value) == [] {
        return false;
      }
      var newer := IsNewer(ParseVersion(f.tag.value), ParseVersion(current));
      checkedAt := Some(now);
      latest := if newer then Some(Release(f.tag.value, LinkOf(f))) else None;
      if newer && loggedTag != Some(f.tag.value) {
        loggedTag, log := f.tag, log + [f.tag.value];
      }
      return true;
    }

    /** The thread's loop, until it is stopped: one check after each wait. */
    method RunLoop(checks: seq<Checked>) returns (waits: seq<real>)
      requires Valid() && latest == None && checkedAt == None && log == []
      modifies this
      ensures Valid()
      ensures latest == After(checks, current).latest && checkedAt == After(checks, current).checkedAt
      ensures |waits| == |checks| + 1
      ensures forall i :: 0 <= i <= |checks| ==> waits[i] == After(checks[..i], current).delay
    {
      hide Check;
      var delay := FIRST_DELAY;
      waits := [delay];
      var i := 0;
      assert checks[..0] == [];
      while i < |checks|
        invariant 0 <= i <= |checks| && Valid()
        invariant Memory(latest, checkedAt, log, delay) == After(checks[..i], current)
        invariant |waits| == i + 1
        invariant forall k :: 0 <= k <= i ==> waits[k] == After(checks[..k], current).delay
      {
        var ok := CheckNow(checks[i].fetched, checks[i].at);
        assert checks[..i + 1][..i] == checks[..i] && checks[..i + 1][i] == checks[i];
        delay := if ok then INTERVAL else RETRY;
        waits := waits + [delay];
        i := i + 1;
      }
      assert checks[..i] == checks;
    }
  }
}
