/**
 The text of a configuration line and its parts: what the two regular expressions shared by
 both editors (configtool.py, spe/config.py) make of it, as plain scanning.
 */
module ConfigText {
  import opened Sequences
  import opened Text
  import opened ConfigLines
  import opened ConfigTool

  predicate IsNameChar(c: char) {
    IsDigit(c) || 'A' <= c <= 'Z' || 'a' <= c <= 'z' || c == '_'
  }

  predicate All(s: string, p: char -> bool) {
    forall i :: 0 <= i < |s| ==> p(s[i])
  }

  /** How many characters at the front satisfy `p`. */
  function Span(s: string, p: char -> bool): (n: nat)
    ensures n <= |s| && All(s[..n], p) && (n < |s| ==> !p(s[n]))
  {
    if s == "" || !p(s[0]) then 0
    else
      assert s == [s[0]] + s[1..];
      var n := Span(s[1..], p) + 1;
      assert s[..n] == [s[0]] + s[1..][..n - 1];
      n
  }

  lemma {:induction false} SpanOf(a: string, b: string, p: char -> bool)
    requires All(a, p) && (b == "" || !p(b[0]))
    ensures Span(a + b, p) == |a|
  {
    if a == "" {
      assert a + b == b;
    } else {
      assert (a + b)[1..] == a[1..] + b && p(a[0]);
      assert forall i :: 0 <= i < |a[1..]| ==> a[1..][i] == a[i + 1];
      SpanOf(a[1..], b, p);
    }
  }

  function LineText(l: Line): string {
    match l
    case Header(name, tail) => name + (":" + tail)
    case Key(indent, name, sep, value, comment, trail) => indent + (name + (sep + (value + (comment + trail))))
    case Other(text) => text
  }

  /** White space and a remark. */
  predicate IsComment(s: string) {
    var n := Span(s, IsSpace);
    1 <= n < |s| && s[n] == '#'
  }

  predicate IsTail(s: string) {
    var n := Span(s, IsSpace);
    n == |s| || s[n] == '#'
  }

  /** A value ends where only a comment or white space follows; the first such place is it. */
  function ValueEnd(s: string, i: nat): (e: nat)
    requires i <= |s|
    ensures i <= e <= |s| && (IsComment(s[e..]) || All(s[e..], IsSpace))
    ensures forall k :: i <= k < e ==> !IsComment(s[k..]) && !All(s[k..], IsSpace)
    decreases |s| - i
  {
    if i == |s| || IsComment(s[i..]) || All(s[i..], IsSpace) then i else ValueEnd(s, i + 1)
  }

  predicate IsSep(sep: string) {
    exists i :: 0 <= i < |sep| && SepAt(sep, i)
  }

  predicate SepAt(sep: string, i: nat)
    requires i < |sep|
  {
    All(sep[..i], IsSpace) && sep[i] == ':' && All(sep[i + 1..], IsSpace)
  }

  /** Indentation and name, and what follows. */
  function LexName(s: string): (r: Option<(string, string, string)>)
    ensures r.Some? ==>
              var (indent, name, rest) := r.value;
              s == indent + (name + rest) && indent != "" && All(indent, IsSpace) && name != "" && All(name, IsNameChar)
  {
    var indent := Span(s, IsSpace);
    var after := s[indent..];
    var name := Span(after, IsNameChar);
    if indent == 0 || name == 0 then None
    else
      TakeDrop(s, indent);
      TakeDrop(after, name);
      Some((s[..indent], after[..name], after[name..]))
  }

  /** The colon and the space around it, and what follows. */
  function LexSep(s: string): (r: Option<(string, string)>)
    ensures r.Some? ==> s == r.value.0 + r.value.1 && IsSep(r.value.0)
    ensures r.Some? ==> r.value.1 == "" || !IsSpace(r.value.1[0])
  {
    var gap := Span(s, IsSpace);
    if gap == |s| || s[gap] != ':' then None
    else
      var end := gap + 1 + Span(s[gap + 1..], IsSpace);
      var sep := s[..end];
      assert SepAt(sep, gap) by {
        assert sep[..gap] == s[..gap] && sep[gap + 1..] == s[gap + 1..][..end - gap - 1];
      }
      TakeDrop(s, end);
      Some((sep, s[end..]))
  }

  /** Value, remark and trailing space. */
  function LexValue(s: string): (r: (string, string, string))
    ensures s == r.0 + (r.1 + r.2) && (r.1 == "" || IsComment(r.1)) && All(r.2, IsSpace) && (r.1 != "" ==> r.2 == "")
    ensures forall k :: 0 <= k < |r.0| ==> !IsComment(s[k..]) && !All(s[k..], IsSpace)
  {
    var end := ValueEnd(s, 0);
    var last := s[end..];
    TakeDrop(s, end);
    assert last + "" == last && "" + last == last;
    if IsComment(last) then (s[..end], last, "") else (s[..end], "", last)
  }

  function LexKey(s: string): Option<Line> {
    match LexName(s)
    case None => None
    case Some(n) =>
      match LexSep(n.2)
      case None => None
      case Some(p) =>
        var v := LexValue(p.1);
        Some(Key(n.0, n.1, p.0, v.0, v.1, v.2))
  }

  function Lex(s: string): Line {
    var n := Span(s, IsNameChar);
    if 0 < n < |s| && s[n] == ':' && IsTail(s[n + 1..]) then Header(s[..n], s[n + 1..])
    else if LexKey(s).Some? then LexKey(s).value
    else Other(s)
  }

  /** Taking a line apart loses nothing. */
  lemma LexIsLossless(s: string)
    ensures LineText(Lex(s)) == s
  {
    hide IsComment, IsTail, ValueEnd, Span;
    var n := Span(s, IsNameChar);
    if 0 < n < |s| && s[n] == ':' && IsTail(s[n + 1..]) {
      assert s == s[..n] + (":" + s[n + 1..]);
    } else if LexKey(s).Some? {
      LexKeyIsLossless(s);
    }
  }

  lemma LexKeyIsLossless(s: string)
    requires LexKey(s).Some?
    ensures LineText(LexKey(s).value) == s
  {
    hide IsComment, LexName, LexSep, LexValue;
  }

  // ------------------------------------------------------------ reading back what was written

  /** Parts as the scan would find them. */
  predicate Shaped(l: Line) {
    && l.Key? && l.indent != "" && All(l.indent, IsSpace) && l.name != "" && All(l.name, IsNameChar)
    && IsSep(l.sep) && (l.comment == "" || IsComment(l.comment))
    && All(l.trail, IsSpace) && (l.comment != "" ==> l.trail == "")
  }

  /** No hash mark stands right after white space. */
  predicate NoRemark(v: string) {
    forall i :: 0 < i < |v| && v[i] == '#' ==> !IsSpace(v[i - 1])
  }

  /** A token that comes back whole: no white space at its ends and no remark inside. */
  predicate GoodValue(v: string) {
    Tight(v) && NoRemark(v)
  }

  lemma SpanAll(s: string, p: char -> bool)
    requires All(s, p)
    ensures Span(s, p) == |s|
  {
    SpanOf(s, "", p);
    assert s + "" == s;
  }

  lemma {:induction false} SpanBound(s: string, p: char -> bool, k: nat)
    requires k < |s| && !p(s[k])
    ensures Span(s, p) <= k
  {
    if k > 0 {
      SpanBound(s[1..], p, k - 1);
    }
  }

  /** A remark begins in a text exactly where white space is followed by a hash mark. */
  lemma RemarkStarts(s: string)
    ensures NoRemark(s) <==> forall i :: 0 <= i < |s| ==> !IsComment(s[i..])
  {
    forall i | 0 <= i < |s| && NoRemark(s)
      ensures !IsComment(s[i..])
    {
      NoCommentAt(s, i);
    }
    forall i | 0 < i < |s| && s[i] == '#' && IsSpace(s[i - 1])
      ensures IsComment(s[i - 1..])
    {
      assert s[i - 1..] == [s[i - 1]] + s[i..];
      SpanOf([s[i - 1]], s[i..], IsSpace);
    }
  }

  lemma NoCommentAt(s: string, i: nat)
    requires NoRemark(s) && i < |s|
    ensures !IsComment(s[i..])
  {
    var n := Span(s[i..], IsSpace);
    if 1 <= n < |s| - i {
      assert s[i..][..n][n - 1] == s[i + n - 1];
      assert s[i..][n] == s[i + n];
    }
  }

  /** Inside a good value no suffix is blank or a comment. */
  lemma NoEndInside(v: string, more: string, i: nat)
    requires GoodValue(v) && i < |v|
    ensures var s := (v + more)[i..]; !IsComment(s) && !All(s, IsSpace)
  {
    var s := (v + more)[i..];
    var n := Span(s, IsSpace);
    assert s[|v| - 1 - i] == v[|v| - 1];
    SpanBound(s, IsSpace, |v| - 1 - i);
    assert s[n] == v[i + n];
    if n >= 1 {
      assert s[..n][n - 1] == v[i + n - 1];
    }
  }

  lemma {:induction false} EndsAfterValue(v: string, more: string, i: nat)
    requires GoodValue(v) && i <= |v| && (IsComment(more) || All(more, IsSpace))
    ensures ValueEnd(v + more, i) == |v|
    decreases |v| - i
  {
    if i < |v| {
      NoEndInside(v, more, i);
      EndsAfterValue(v, more, i + 1);
    } else {
      assert (v + more)[i..] == more;
    }
  }

  /** Shaped as an editor leaves a line, without trailing space. */
  predicate Framed(l: Line) {
    Shaped(l) && l.trail == ""
  }

  /** A value that comes back in front of a remark, or of none. */
  predicate Fits(v: string, comment: string) {
    GoodValue(v) && (v == "" ==> comment == "")
  }

  lemma KeyReadsBack(l: Line)
    requires Framed(l) && Fits(l.value, l.comment)
    ensures Lex(LineText(l)) == l
  {
    hide Span, IsComment, LexName, LexSep, LexValue, IsSep, All, GoodValue;
    var last := l.comment + l.trail;
    var rest := l.value + last;
    NameReadsBack(l.indent, l.name, l.sep, rest);
    ValueReadsBack(l);
    SepReadsBack(l.sep, rest);
    NotAHeader(l.indent, l.name + (l.sep + rest));
  }

  /** A key line is taken apart into the parts it was written from exactly when its value has no
      white space at its ends and no hash mark after white space, and is not empty in front of a
      remark. */
  lemma KeyReadsBackIff(l: Line)
    requires Framed(l)
    ensures Lex(LineText(l)) == l <==> Fits(l.value, l.comment)
  {
    hide LineText, All, IsComment;
    if Fits(l.value, l.comment) {
      KeyReadsBack(l);
    } else if Lex(LineText(l)) == l {
      LexedFits(LineText(l));
    }
  }

  lemma RemarkAt(s: string, k: nat)
    requires k + 1 < |s| && IsSpace(s[k]) && s[k + 1] == '#'
    ensures IsComment(s[k..])
  {
    assert s[k..] == [s[k]] + s[k + 1..];
    SpanOf([s[k]], s[k + 1..], IsSpace);
  }

  lemma {:induction false} SpaceThenEnd(c: char, s: string)
    requires IsSpace(c) && (IsComment(s) || All(s, IsSpace))
    ensures IsComment([c] + s) || All([c] + s, IsSpace)
  {
    assert ([c] + s)[1..] == s;
  }

  lemma LexedFits(s: string)
    requires Lex(s).Key? && Lex(s).trail == ""
    ensures Fits(Lex(s).value, Lex(s).comment)
  {
    hide LexName, LexSep, LexValue, IsComment, Span, All, IsTail, IsSep;
    var l, rest := Lex(s), LexSep(LexName(s).value.2).value.1;
    var v, c := l.value, l.comment;
    SumNothing(c);
    assert rest == v + c;
    forall i | 0 < i < |v| && IsSpace(v[i - 1])
      ensures v[i] != '#'
    {
      NotRemarkAt(rest, i - 1);
    }
    EmptyIsSpace();
    if v != "" {
      var last := |v| - 1;
      assert rest[last..] == [v[last]] + c;
      EndIsNotSpace(v[last], c);
    } else if c != "" {
      CommentHasSpace(c);
    }
  }

  lemma NotRemarkAt(s: string, k: nat)
    requires k + 1 < |s| && !IsComment(s[k..]) && IsSpace(s[k])
    ensures s[k + 1] != '#'
  {
    if s[k + 1] == '#' {
      RemarkAt(s, k);
    }
  }

  lemma EndIsNotSpace(c: char, s: string)
    requires !IsComment([c] + s) && !All([c] + s, IsSpace) && (IsComment(s) || All(s, IsSpace))
    ensures !IsSpace(c)
  {
    if IsSpace(c) {
      SpaceThenEnd(c, s);
    }
  }

  lemma CommentHasSpace(s: string)
    requires IsComment(s)
    ensures IsSpace(s[0])
  {
    assert s[..Span(s, IsSpace)][0] == s[0];
  }

  lemma NameReadsBack(indent: string, name: string, sep: string, rest: string)
    requires indent != "" && All(indent, IsSpace) && name != "" && All(name, IsNameChar) && IsSep(sep)
    ensures LexName(indent + (name + (sep + rest))) == Some((indent, name, sep + rest))
  {
    hide Span;
    var after := name + (sep + rest);
    assert IsNameChar(name[0]) && after[0] == name[0];
    SpanOf(indent, after, IsSpace);
    assert (indent + after)[..|indent|] == indent && (indent + after)[|indent|..] == after;
    SepAfterName(sep, rest);
    SpanOf(name, sep + rest, IsNameChar);
    assert after[..|name|] == name && after[|name|..] == sep + rest;
  }

  lemma SepReadsBack(sep: string, rest: string)
    requires IsSep(sep) && (rest == "" || !IsSpace(rest[0]))
    ensures LexSep(sep + rest) == Some((sep, rest))
  {
    hide Span, IsSep;
    SepScanned(sep, rest);
    assert (sep + rest)[..|sep|] == sep && (sep + rest)[|sep|..] == rest;
  }

  lemma ValueReadsBack(l: Line)
    requires Framed(l) && Fits(l.value, l.comment)
    ensures LexValue(l.value + (l.comment + l.trail)) == (l.value, l.comment, l.trail)
    ensures var rest := l.value + (l.comment + l.trail); rest == "" || !IsSpace(rest[0])
  {
    hide Span, IsComment, ValueEnd, All, NoRemark;
    var last := l.comment + l.trail;
    var rest := l.value + last;
    LastPart(l);
    EndsAfterValue(l.value, last, 0);
    assert rest[..|l.value|] == l.value && rest[|l.value|..] == last;
  }

  lemma LastPart(l: Line)
    requires Shaped(l)
    ensures var last := l.comment + l.trail;
            && (IsComment(last) || All(last, IsSpace))
            && l.comment == (if IsComment(last) then last else "")
            && l.trail == (if IsComment(last) then "" else last)
  {
    var last := l.comment + l.trail;
    if l.comment == "" {
      assert last == l.trail;
      SpanAll(last, IsSpace);
    } else {
      assert last == l.comment;
    }
  }

  lemma NotAHeader(indent: string, more: string)
    requires indent != "" && All(indent, IsSpace)
    ensures Span(indent + more, IsNameChar) == 0
  {
    var s := indent + more;
    assert s[0] == indent[0] && IsSpace(indent[0]);
    assert "" + s == s;
    SpanOf("", s, IsNameChar);
  }

  lemma SepAfterName(sep: string, rest: string)
    requires IsSep(sep)
    ensures sep != "" && !IsNameChar((sep + rest)[0])
  {
    var i :| 0 <= i < |sep| && SepAt(sep, i);
    if i > 0 {
      assert sep[..i][0] == sep[0] && IsSpace(sep[0]);
    }
  }

  lemma SepScanned(sep: string, rest: string)
    requires IsSep(sep) && (rest == "" || !IsSpace(rest[0]))
    ensures var s := sep + rest;
            var gap := Span(s, IsSpace);
            gap < |s| && s[gap] == ':' && gap + 1 + Span(s[gap + 1..], IsSpace) == |sep|
  {
    hide Span;
    var s := sep + rest;
    var i :| 0 <= i < |sep| && SepAt(sep, i);
    assert s == sep[..i] + s[i..];
    SpanOf(sep[..i], s[i..], IsSpace);
    assert s[i + 1..] == sep[i + 1..] + rest;
    SpanOf(sep[i + 1..], rest, IsSpace);
  }

  /** What the scan calls a key line is shaped like one. */
  lemma LexedIsShaped(s: string)
    requires Lex(s).Key?
    ensures Shaped(Lex(s))
  {
    hide IsComment, LexName, LexSep, LexValue;
  }

  lemma EmptyIsSpace()
    ensures All("", IsSpace)
  {
  }

  /** A line whose text is taken apart into that same line. */
  predicate Readable(l: Line) {
    Lex(LineText(l)) == l
  }

  predicate AllReadable(ls: File) {
    forall i :: 0 <= i < |ls| ==> Readable(ls[i])
  }

  function LexAll(ts: seq<string>): (r: File)
    ensures |r| == |ts| && forall i :: 0 <= i < |r| ==> r[i] == Lex(ts[i])
  {
    seq(|ts|, i requires 0 <= i < |ts| => Lex(ts[i]))
  }

  function Texts(ls: File): (r: seq<string>)
    ensures |r| == |ls| && forall i :: 0 <= i < |r| ==> r[i] == LineText(ls[i])
  {
    seq(|ls|, i requires 0 <= i < |ls| => LineText(ls[i]))
  }

  /** Any file read and written unchanged is the same text. */
  lemma FileIsLossless(ts: seq<string>)
    ensures Texts(LexAll(ts)) == ts && AllReadable(LexAll(ts))
  {
    hide Lex, LineText;
    forall i | 0 <= i < |ts|
      ensures LineText(Lex(ts[i])) == ts[i]
    {
      LexIsLossless(ts[i]);
    }
  }

  lemma ReadBack(ls: File)
    requires AllReadable(ls)
    ensures LexAll(Texts(ls)) == ls
  {
  }

  lemma SetLineReadable(l: Line, v: string)
    requires Readable(l) && l.Key? && GoodValue(v) && v != ""
    ensures Readable(SetLine(l, v))
  {
    hide Lex, LineText;
    LexedIsShaped(LineText(l));
    EmptyIsSpace();
    KeyReadsBack(SetLine(l, v));
  }

  lemma NewLineReads(key: string, v: string, remark: string)
    requires key != "" && All(key, IsNameChar) && (remark == "" || IsComment(remark))
    ensures Readable(NewLine(key, v, remark)) <==> Fits(v, remark)
  {
    hide Lex, LineText, IsComment, Fits;
    EmptyIsSpace();
    assert SepAt(": ", 0);
    assert All("  ", IsSpace);
    KeyReadsBackIff(NewLine(key, v, remark));
  }

  /** What is cut: the text of a value from white space before a hash mark on is read back as a
      remark. */
  lemma RemarkCutsValue(key: string, v: string, remark: string)
    requires key != "" && All(key, IsNameChar) && GoodValue(v) && v != "" && IsComment(remark)
    ensures Lex(LineText(NewLine(key, v + remark, ""))) == NewLine(key, v, remark)
  {
    hide Lex, IsComment, GoodValue, All;
    NewLineReads(key, v, remark);
    SumNothing(remark);
    SumNothing("");
    SumNothing(v + remark);
    assert LineText(NewLine(key, v + remark, "")) == LineText(NewLine(key, v, remark));
  }

  // ------------------------------------------------------------ a whole edit, as text

  predicate IsName(s: string) {
    s != "" && All(s, IsNameChar)
  }

  predicate GoodChange(c: Change) {
    IsName(c.slot.section) && IsName(c.slot.key) && GoodValue(c.value) && c.value != ""
  }

  predicate GoodChanges(cs: seq<Change>) {
    forall i :: 0 <= i < |cs| ==> GoodChange(cs[i])
  }

  /** The templates' words are comment lines and remarks, and a blank line is blank. */
  ghost predicate GoodWording(w: Wording) {
    && (forall section, i :: 0 <= i < |w.notes(section)| ==> Readable(Other(w.notes(section)[i])))
    && (forall slot :: w.remark(slot) == "" || IsComment(w.remark(slot)))
  }

  lemma {:induction false} SetOneReadable(ls: File, cur: Option<string>, c: Change)
    requires AllReadable(ls) && GoodValue(c.value) && c.value != ""
    ensures AllReadable(SetOne(ls, cur, c).0)
  {
    hide Readable, GoodValue;
    if ls != [] {
      if IsSlot(ls[0], cur, c.slot) {
        SetLineReadable(ls[0], c.value);
      } else {
        SetOneReadable(ls[1..], if ls[0].Header? then Some(ls[0].name) else cur, c);
      }
    }
  }

  lemma ReadableSum(a: File, b: File)
    requires AllReadable(a) && AllReadable(b)
    ensures AllReadable(a + b)
  {
    hide Readable;
  }

  lemma ReadableInserted(ls: File, at: nat, block: File)
    requires at <= |ls| && AllReadable(ls) && AllReadable(block)
    ensures AllReadable(Inserted(ls, at, block))
  {
    hide Readable;
  }

  lemma EditReadable(ls: File, c: Change)
    requires AllReadable(ls) && GoodChange(c)
    ensures AllReadable(Edit(ls, c))
  {
    hide Readable, GoodValue, SetOne, Inserted, AllReadable;
    SetOneReadable(ls, None, c);
    NewLineReads(c.slot.key, c.value, "");
    var header := FirstHeader(ls, c.slot.section, 0);
    if header.Some? {
      OneReadable(NewLine(c.slot.key, c.value, ""));
      ReadableInserted(ls, InsertAt(ls, header.value), [NewLine(c.slot.key, c.value, "")]);
    }
  }

  lemma OneReadable(l: Line)
    requires Readable(l)
    ensures AllReadable([l])
  {
  }

  lemma {:induction false} DirectReadable(ls: File, cs: seq<Change>)
    requires AllReadable(ls) && GoodChanges(cs)
    ensures AllReadable(Direct(ls, cs))
    decreases |cs|
  {
    if cs != [] {
      hide AllReadable, Edit, HasSection, GoodChange;
      EditReadable(ls, cs[0]);
      DirectReadable(if HasSection(ls, cs[0].slot.section) then Edit(ls, cs[0]) else ls, cs[1..]);
    }
  }

  lemma PlainIsGood(v: string)
    requires forall i :: 0 <= i < |v| ==> !IsSpace(v[i])
    ensures GoodValue(v)
  {
  }

  predicate GoodTemplate(keys: seq<(string, string)>) {
    forall i :: 0 <= i < |keys| ==> IsName(keys[i].0) && GoodValue(keys[i].1) && keys[i].1 != ""
  }

  lemma TemplateIsGood(section: string)
    ensures GoodTemplate(Template(section))
  {
    var keys := Template(section);
    forall i | 0 <= i < |keys|
      ensures IsName(keys[i].0) && GoodValue(keys[i].1) && keys[i].1 != ""
    {
      PlainIsGood(keys[i].1);
    }
  }

  lemma GoodTail(cs: seq<Change>)
    requires GoodChanges(cs) && cs != []
    ensures GoodChange(cs[0]) && GoodChanges(cs[1..])
  {
    hide GoodChange;
    assert forall i :: 0 <= i < |cs[1..]| ==> cs[1..][i] == cs[i + 1];
  }

  lemma {:induction false} ValueInGood(cs: seq<Change>, s: Slot)
    requires GoodChanges(cs)
    ensures ValueIn(cs, s).Some? ==> GoodValue(ValueIn(cs, s).value) && ValueIn(cs, s).value != ""
  {
    hide GoodValue, IsName;
    if cs != [] {
      GoodTail(cs);
      ValueInGood(cs[1..], s);
    }
  }

  lemma GoodTemplateTail(keys: seq<(string, string)>)
    requires GoodTemplate(keys) && keys != []
    ensures IsName(keys[0].0) && GoodValue(keys[0].1) && keys[0].1 != "" && GoodTemplate(keys[1..])
  {
    hide IsName, GoodValue;
    assert forall i :: 0 <= i < |keys[1..]| ==> keys[1..][i] == keys[i + 1];
  }

  lemma TemplateLineReadable(s: Slot, default: string, cs: seq<Change>, w: Wording)
    requires IsName(s.key) && GoodValue(default) && default != "" && GoodChanges(cs) && GoodWording(w)
    ensures Readable(NewLine(s.key, ValueOr(cs, s, default), w.remark(s)))
  {
    hide Readable, GoodValue, GoodChanges, All, IsComment;
    ValueInGood(cs, s);
    NewLineReads(s.key, ValueOr(cs, s, default), w.remark(s));
  }

  lemma {:induction false} TemplateReadable(section: string, keys: seq<(string, string)>, cs: seq<Change>, w: Wording)
    requires GoodTemplate(keys) && GoodChanges(cs) && GoodWording(w)
    ensures AllReadable(TemplateLines(section, keys, cs, w))
  {
    if keys != [] {
      hide Readable, AllReadable, GoodValue, GoodChanges, GoodWording, GoodTemplate, IsName;
      var s := Slot(section, keys[0].0);
      var line := NewLine(s.key, ValueOr(cs, s, keys[0].1), w.remark(s));
      GoodTemplateTail(keys);
      TemplateLineReadable(s, keys[0].1, cs, w);
      TemplateReadable(section, keys[1..], cs, w);
      OneReadable(line);
      ReadableSum([line], TemplateLines(section, keys[1..], cs, w));
    }
  }

  lemma ExtraLineReadable(c: Change)
    requires GoodChange(c)
    ensures Readable(NewLine(c.slot.key, c.value, ""))
  {
    hide Readable, GoodValue, All;
    NewLineReads(c.slot.key, c.value, "");
  }

  lemma ExtraStep(section: string, cs: seq<Change>)
    requires cs != []
    ensures var rest := ExtraLines(section, cs[1..]);
            || ExtraLines(section, cs) == [NewLine(cs[0].slot.key, cs[0].value, "")] + rest
            || ExtraLines(section, cs) == rest
  {
    hide Template, InTemplate;
    assert [] + ExtraLines(section, cs[1..]) == ExtraLines(section, cs[1..]);
  }

  lemma {:induction false} ExtraReadable(section: string, cs: seq<Change>)
    requires GoodChanges(cs)
    ensures AllReadable(ExtraLines(section, cs))
  {
    if cs == [] {
      assert ExtraLines(section, cs) == [];
    } else {
      hide Readable, AllReadable, GoodChange, GoodChanges, ExtraLines;
      var line := NewLine(cs[0].slot.key, cs[0].value, "");
      GoodTail(cs);
      ExtraLineReadable(cs[0]);
      ExtraReadable(section, cs[1..]);
      OneReadable(line);
      ReadableSum([line], ExtraLines(section, cs[1..]));
      ExtraStep(section, cs);
    }
  }

  lemma HeaderReadable(section: string)
    requires IsName(section)
    ensures Readable(Header(section, ""))
  {
    SpanOf(section, ":", IsNameChar);
    var s := section + ":";
    assert LineText(Header(section, "")) == section + (":" + "") == s;
    assert s[..|section|] == section && s[|section| + 1..] == "";
  }

  lemma BlankReadable()
    ensures Readable(Other(""))
  {
  }

  lemma BlockReadable(b: Block)
    requires IsName(b.section) && AllReadable(b.body) && AllReadable(Notes(b.notes))
    ensures AllReadable(Lines(b))
  {
    hide Readable, AllReadable, IsName;
    HeaderReadable(b.section);
    OneReadable(Header(b.section, ""));
    ReadableSum([Header(b.section, "")], b.body);
    ReadableSum(Notes(b.notes), [Header(b.section, "")] + b.body);
  }

  lemma InsertBlockReadable(ls: File, b: Block)
    requires AllReadable(ls) && IsName(b.section) && AllReadable(b.body) && AllReadable(Notes(b.notes))
    ensures AllReadable(InsertBlock(ls, b))
  {
    hide Readable, AllReadable, IsName, Inserted, Lines, Blank;
    var at := FirstHeader(ls, LOGGING, 0);
    var above, below := b.(notes := [""] + b.notes), b.(body := b.body + [Other("")]);
    BlankReadable();
    OneReadable(Other(""));
    ReadableSum(b.body, [Other("")]);
    assert Notes(above.notes) == [Other("")] + Notes(b.notes);
    ReadableSum([Other("")], Notes(b.notes));
    BlockReadable(b);
    BlockReadable(above);
    BlockReadable(below);
    if at.Some? {
      ReadableInserted(ls, at.value, Lines(below));
    } else {
      ReadableInserted(ls, |ls|, Lines(above));
      ReadableInserted(ls, |ls|, Lines(b));
    }
  }

  lemma NotesReadable(w: Wording, section: string)
    requires GoodWording(w)
    ensures AllReadable(Notes(w.notes(section)))
  {
    hide Readable, IsComment;
  }

  lemma {:induction false} AddBlocksReadable(ls: File, names: seq<string>, pending: seq<Change>, w: Wording)
    requires AllReadable(ls) && GoodChanges(pending) && GoodWording(w)
    requires forall i :: 0 <= i < |names| ==> IsName(names[i])
    ensures AllReadable(AddBlocks(ls, names, pending, w))
    decreases |names|
  {
    if names != [] {
      hide AllReadable, InsertBlock, GoodChanges, GoodWording, IsName, Template, InTemplate;
      var name := names[0];
      TemplateIsGood(name);
      TemplateReadable(name, Template(name), pending, w);
      ExtraReadable(name, pending);
      ReadableSum(TemplateLines(name, Template(name), pending, w), ExtraLines(name, pending));
      NotesReadable(w, name);
      InsertBlockReadable(ls, RenderSection(name, pending, w));
      AddBlocksReadable(InsertBlock(ls, RenderSection(name, pending, w)), names[1..], pending, w);
    }
  }

  lemma PendingGood(ls: File, cs: seq<Change>)
    requires GoodChanges(cs)
    ensures GoodChanges(Absent(ls, cs))
    ensures var names := RenderOrder(Absent(ls, cs)); forall i :: 0 <= i < |names| ==> IsName(names[i])
  {
    hide GoodChange, IsName, HasSection, RenderOrder, Absent;
    var p := Absent(ls, cs);
    forall i | 0 <= i < |p|
      ensures GoodChange(p[i])
    {
      assert p[i] in p;
      var k :| 0 <= k < |cs| && cs[k] == p[i];
    }
    var names := RenderOrder(p);
    forall i | 0 <= i < |names|
      ensures IsName(names[i])
    {
      assert names[i] in names;
      var k :| 0 <= k < |p| && p[k].slot.section == names[i];
      GoodSection(p[k]);
    }
  }

  lemma GoodSection(c: Change)
    requires GoodChange(c)
    ensures IsName(c.slot.section)
  {
  }

  /** The edited text, read again, is the edited lines, sections made from scratch included: so
      editing the text once more with the same changes returns it unchanged. */
  lemma TextEditIsStable(ts: seq<string>, cs: seq<Change>, w: Wording)
    requires Distinct(cs) && GoodChanges(cs) && GoodWording(w)
    ensures var out := Apply(LexAll(ts), cs, w);
            LexAll(Texts(out)) == out && Texts(Apply(LexAll(Texts(out)), cs, w)) == Texts(out)
  {
    hide AllReadable, GoodChanges, GoodWording, IsName, HasSection, Direct, AddBlocks, Absent, RenderOrder;
    var ls := LexAll(ts);
    FileIsLossless(ts);
    DirectReadable(ls, cs);
    PendingGood(ls, cs);
    AddBlocksReadable(Direct(ls, cs), RenderOrder(Absent(ls, cs)), Absent(ls, cs), w);
    ReadBack(Apply(ls, cs, w));
    ApplyTwice(ls, cs, w);
  }
}
