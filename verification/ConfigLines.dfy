/**
 A configuration file as its editors see it: a sequence of lines, of which only flat section
 headers and indented key lines matter to them. ConfigText relates lines to their text.
 */
module ConfigLines {
  import opened Sequences
  import opened Text

  datatype Line =
    | Header(name: string, tail: string)
    | Key(indent: string, name: string, sep: string, value: string, comment: string, trail: string)
    | Other(text: string)

  type File = seq<Line>

  datatype Slot = Slot(section: string, key: string)

  /** A key and the formatted token to write for it. */
  datatype Change = Change(slot: Slot, value: string)

  /** What both editors write over a key line: the comment stays, trailing space goes. */
  function SetLine(l: Line, value: string): Line
    requires l.Key?
  {
    l.(value := value, trail := "")
  }

  /** The key line both editors add. */
  function NewLine(key: string, value: string, remark: string): Line {
    Key("  ", key, ": ", value, remark, "")
  }

  /** The section a line stands in is that of the last header above it. */
  function SectionAfter(ls: File, cur: Option<string>): Option<string> {
    if ls == [] then cur
    else SectionAfter(ls[1..], if ls[0].Header? then Some(ls[0].name) else cur)
  }

  predicate IsSlot(l: Line, cur: Option<string>, s: Slot) {
    l.Key? && cur == Some(s.section) && l.name == s.key
  }

  /** The line that gives a key its value: the first in a section of that name. */
  function FirstLine(ls: File, cur: Option<string>, s: Slot): (r: Option<Line>)
    ensures r.Some? ==> r.value.Key?
  {
    if ls == [] then None
    else if ls[0].Header? then FirstLine(ls[1..], Some(ls[0].name), s)
    else if IsSlot(ls[0], cur, s) then Some(ls[0])
    else FirstLine(ls[1..], cur, s)
  }

  function Read(ls: File, s: Slot): Option<string> {
    match FirstLine(ls, None, s)
    case None => None
    case Some(l) => Some(l.value)
  }

  predicate HasSection(ls: File, section: string) {
    exists i :: 0 <= i < |ls| && IsHeader(ls[i], section)
  }

  predicate IsHeader(l: Line, section: string) {
    l.Header? && l.name == section
  }

  lemma {:induction false} SectionAfterSum(a: File, b: File, cur: Option<string>)
    ensures SectionAfter(a + b, cur) == SectionAfter(b, SectionAfter(a, cur))
  {
    if a == [] {
      assert a + b == b;
    } else {
      assert (a + b)[1..] == a[1..] + b;
      SectionAfterSum(a[1..], b, if a[0].Header? then Some(a[0].name) else cur);
    }
  }

  function Either(a: Option<Line>, b: Option<Line>): Option<Line> {
    if a.Some? then a else b
  }

  lemma {:induction false} FirstOfSum(a: File, b: File, cur: Option<string>, s: Slot)
    ensures FirstLine(a + b, cur, s) == Either(FirstLine(a, cur, s), FirstLine(b, SectionAfter(a, cur), s))
  {
    if a == [] {
      assert a + b == b;
    } else {
      assert (a + b)[1..] == a[1..] + b && (a + b)[0] == a[0];
      FirstOfSum(a[1..], b, if a[0].Header? then Some(a[0].name) else cur, s);
    }
  }

  lemma HasSectionSum(a: File, b: File, section: string)
    ensures HasSection(a + b, section) <==> HasSection(a, section) || HasSection(b, section)
  {
    if HasSection(b, section) {
      var i :| 0 <= i < |b| && IsHeader(b[i], section);
      assert IsHeader((a + b)[|a| + i], section);
    }
    if HasSection(a, section) {
      var i :| 0 <= i < |a| && IsHeader(a[i], section);
      assert IsHeader((a + b)[i], section);
    }
    if HasSection(a + b, section) {
      var i :| 0 <= i < |a + b| && IsHeader((a + b)[i], section);
      assert i < |a| ==> IsHeader(a[i], section);
      assert i >= |a| ==> IsHeader(b[i - |a|], section);
    }
  }

  lemma HasSectionOne(l: Line, section: string)
    ensures HasSection([l], section) <==> IsHeader(l, section)
  {
    assert [l][0] == l;
  }

  /** A key can be read only where its section has a header. */
  lemma {:induction false} NoSectionNoKey(ls: File, cur: Option<string>, s: Slot)
    requires !HasSection(ls, s.section) && cur != Some(s.section)
    ensures FirstLine(ls, cur, s) == None && SectionAfter(ls, cur) != Some(s.section)
  {
    if ls != [] {
      HasSectionSum([ls[0]], ls[1..], s.section);
      HasSectionOne(ls[0], s.section);
      assert [ls[0]] + ls[1..] == ls;
      NoSectionNoKey(ls[1..], if ls[0].Header? then Some(ls[0].name) else cur, s);
    }
  }

  // ------------------------------------------------------------ what survives an edit

  predicate SameButValue(a: Line, b: Line) {
    a == b ||
    (a.Key? && b.Key? && a.indent == b.indent && a.name == b.name && a.sep == b.sep && a.comment == b.comment)
  }

  /** Every line of `a` is in `b`, in the same order, but for the values of keys. */
  predicate Survives(a: File, b: File) {
    a == [] ||
    (b != [] && ((SameButValue(a[0], b[0]) && Survives(a[1..], b[1..])) || Survives(a, b[1..])))
  }

  lemma {:induction false} SurvivesMore(a: File, more: File, b: File)
    requires Survives(a, b)
    ensures Survives(a, more + b)
  {
    if more == [] {
      assert more + b == b;
    } else {
      SurvivesMore(a, more[1..], b);
      assert (more + b)[1..] == more[1..] + b;
    }
  }

  lemma {:induction false} SurvivesSum(a: File, b: File, c: File, d: File)
    requires Survives(a, b) && Survives(c, d)
    ensures Survives(a + c, b + d)
    decreases |a| + |b|
  {
    if a == [] {
      assert a + c == c;
      SurvivesMore(c, b, d);
    } else {
      assert (b + d)[1..] == b[1..] + d && (b + d)[0] == b[0];
      assert (a + c)[1..] == a[1..] + c && (a + c)[0] == a[0];
      if SameButValue(a[0], b[0]) && Survives(a[1..], b[1..]) {
        SurvivesSum(a[1..], b[1..], c, d);
      } else {
        SurvivesSum(a, b[1..], c, d);
      }
    }
  }

  lemma {:induction false} SurvivesItself(a: File)
    ensures Survives(a, a)
  {
    if a != [] {
      SurvivesItself(a[1..]);
    }
  }

  lemma {:induction false} SurvivesTwice(a: File, b: File, c: File)
    requires Survives(a, b) && Survives(b, c)
    ensures Survives(a, c)
    decreases |a| + |b| + |c|
  {
    if a != [] {
      if SameButValue(b[0], c[0]) && Survives(b[1..], c[1..]) {
        if SameButValue(a[0], b[0]) && Survives(a[1..], b[1..]) {
          SurvivesTwice(a[1..], b[1..], c[1..]);
        } else {
          SurvivesTwice(a, b[1..], c[1..]);
        }
      } else {
        SurvivesTwice(a, b, c[1..]);
      }
    }
  }

  function Inserted(ls: File, at: nat, block: File): File
    requires at <= |ls|
  {
    ls[..at] + block + ls[at..]
  }

  lemma InsertedSurvives(ls: File, at: nat, block: File)
    requires at <= |ls|
    ensures Survives(ls, Inserted(ls, at, block))
  {
    TakeDrop(ls, at);
    SurvivesItself(ls[..at]);
    SurvivesItself(ls[at..]);
    SurvivesMore(ls[at..], block, ls[at..]);
    SurvivesSum(ls[..at], ls[..at], ls[at..], block + ls[at..]);
    SumAssociates(ls[..at], block, ls[at..]);
  }

  // ------------------------------------------------------------ inserting

  lemma FirstOfInserted(ls: File, at: nat, block: File, s: Slot)
    requires at <= |ls|
    ensures var cur := SectionAfter(ls[..at], None);
            FirstLine(Inserted(ls, at, block), None, s) ==
            Either(FirstLine(ls[..at], None, s),
                   Either(FirstLine(block, cur, s), FirstLine(ls[at..], SectionAfter(block, cur), s)))
    ensures FirstLine(ls, None, s) ==
            Either(FirstLine(ls[..at], None, s), FirstLine(ls[at..], SectionAfter(ls[..at], None), s))
  {
    FirstOfSum(ls[..at], block + ls[at..], None, s);
    FirstOfSum(block, ls[at..], SectionAfter(ls[..at], None), s);
    SumAssociates(ls[..at], block, ls[at..]);
    FirstOfSum(ls[..at], ls[at..], None, s);
    TakeDrop(ls, at);
  }

  lemma HasSectionOfInserted(ls: File, at: nat, block: File, section: string)
    requires at <= |ls|
    ensures HasSection(Inserted(ls, at, block), section) <==> HasSection(ls, section) || HasSection(block, section)
  {
    hide HasSection;
    HasSectionSum(ls[..at] + block, ls[at..], section);
    HasSectionSum(ls[..at], block, section);
    HasSectionSum(ls[..at], ls[at..], section);
    TakeDrop(ls, at);
  }

  /** The lines before the next header. */
  function Body(ls: File): (r: File)
    ensures forall i :: 0 <= i < |r| ==> !r[i].Header?
  {
    if ls == [] || ls[0].Header? then [] else [ls[0]] + Body(ls[1..])
  }

  lemma {:induction false} NoHeaderNoSection(ls: File, cur: Option<string>)
    requires forall i :: 0 <= i < |ls| ==> !ls[i].Header?
    ensures SectionAfter(ls, cur) == cur
  {
    if ls != [] {
      NoHeaderNoSection(ls[1..], cur);
    }
  }

  lemma NoHeaderAdds(block: File, section: string)
    requires forall i :: 0 <= i < |block| ==> !block[i].Header?
    ensures !HasSection(block, section)
  {
  }

  /** Key lines put where their section is current, none of whose keys the file had, are read
      from there; every other key keeps its line. */
  lemma KeysInserted(ls: File, at: nat, block: File, s: Slot, section: string)
    requires at <= |ls| && SectionAfter(ls[..at], None) == Some(section)
    requires forall i :: 0 <= i < |block| ==> !block[i].Header?
    requires FirstLine(block, Some(section), s).Some? ==> FirstLine(ls, None, s) == None
    ensures FirstLine(Inserted(ls, at, block), None, s) ==
            Either(FirstLine(block, Some(section), s), FirstLine(ls, None, s))
  {
    FirstOfInserted(ls, at, block, s);
    NoHeaderNoSection(block, Some(section));
  }
}
