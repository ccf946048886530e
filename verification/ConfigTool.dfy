/**
 The command-line configuration editor (configtool.py): one key at a time, the missing
 sections last.
 */
module ConfigTool {
  import opened Sequences
  import opened Text
  import opened ConfigLines

  // ------------------------------------------------------------ setting one key

  /** `_set_one` from a point where the current section is `cur`. */
  function SetOne(ls: File, cur: Option<string>, c: Change): (r: (File, bool))
    ensures |r.0| == |ls|
  {
    if ls == [] then ([], false)
    else if ls[0].Header? then
      var (rest, found) := SetOne(ls[1..], Some(ls[0].name), c);
      ([ls[0]] + rest, found)
    else if IsSlot(ls[0], cur, c.slot) then ([SetLine(ls[0], c.value)] + ls[1..], true)
    else
      var (rest, found) := SetOne(ls[1..], cur, c);
      ([ls[0]] + rest, found)
  }

  function Overwritten(l: Option<Line>, value: string): Option<Line>
    requires l.Some? ==> l.value.Key?
  {
    if l.None? then None else Some(SetLine(l.value, value))
  }

  /** Setting a key changes its line, and no other key's, nor any section. */
  lemma {:induction false} SetOneReads(ls: File, cur: Option<string>, c: Change, s: Slot)
    ensures var r := SetOne(ls, cur, c);
            && r.1 == FirstLine(ls, cur, c.slot).Some?
            && FirstLine(r.0, cur, s) ==
               (if s == c.slot then Overwritten(FirstLine(ls, cur, s), c.value) else FirstLine(ls, cur, s))
            && SectionAfter(r.0, cur) == SectionAfter(ls, cur)
  {
    if ls != [] && !IsSlot(ls[0], cur, c.slot) {
      SetOneReads(ls[1..], if ls[0].Header? then Some(ls[0].name) else cur, c, s);
    }
  }

  lemma {:induction false} SetOneSections(ls: File, cur: Option<string>, c: Change, section: string)
    ensures HasSection(SetOne(ls, cur, c).0, section) <==> HasSection(ls, section)
  {
    if ls != [] {
      hide HasSection;
      var out, rest := SetOne(ls, cur, c).0, ls[1..];
      assert [ls[0]] + rest == ls && [out[0]] + out[1..] == out;
      HasSectionSum([ls[0]], rest, section);
      HasSectionSum([out[0]], out[1..], section);
      HasSectionOne(ls[0], section);
      HasSectionOne(out[0], section);
      if !IsSlot(ls[0], cur, c.slot) {
        SetOneSections(rest, if ls[0].Header? then Some(ls[0].name) else cur, c, section);
      }
    }
  }

  lemma {:induction false} SetOneSurvives(ls: File, cur: Option<string>, c: Change)
    ensures Survives(ls, SetOne(ls, cur, c).0)
  {
    if ls != [] {
      if IsSlot(ls[0], cur, c.slot) {
        SurvivesItself(ls[1..]);
      } else {
        SetOneSurvives(ls[1..], if ls[0].Header? then Some(ls[0].name) else cur, c);
      }
    }
  }

  /** A key whose line is already as it would be written. */
  predicate Settled(ls: File, c: Change) {
    var l := FirstLine(ls, None, c.slot);
    l.Some? && l.value.value == c.value && l.value.trail == ""
  }

  predicate Written(l: Option<Line>, c: Change) {
    l.Some? && l.value.Key? && l.value.value == c.value && l.value.trail == ""
  }

  lemma {:induction false} SetOneAgain(ls: File, cur: Option<string>, c: Change)
    requires Written(FirstLine(ls, cur, c.slot), c)
    ensures SetOne(ls, cur, c) == (ls, true)
  {
    assert ls == [ls[0]] + ls[1..];
    if !IsSlot(ls[0], cur, c.slot) {
      SetOneAgain(ls[1..], if ls[0].Header? then Some(ls[0].name) else cur, c);
    }
  }

  // ------------------------------------------------------------ where a new key goes

  /** `_insert_key`'s scan: past the last key of the first section of that name. */
  function KeyPlace(ls: File, section: string, cur: Option<string>, at: Option<nat>, i: nat): Option<nat>
    requires i <= |ls|
    decreases |ls| - i
  {
    if i == |ls| then at
    else if ls[i].Header? then
      if cur == Some(section) then at
      else KeyPlace(ls, section, Some(ls[i].name), if ls[i].name == section then Some(i + 1) else at, i + 1)
    else KeyPlace(ls, section, cur, if cur == Some(section) && ls[i].Key? then Some(i + 1) else at, i + 1)
  }

  /** The first header of a section at or after `i`. */
  function FirstHeader(ls: File, section: string, i: nat): (r: Option<nat>)
    requires i <= |ls|
    ensures r.Some? ==> i <= r.value < |ls| && IsHeader(ls[r.value], section)
    ensures forall k :: i <= k < (if r.Some? then r.value else |ls|) ==> !IsHeader(ls[k], section)
    decreases |ls| - i
  {
    if i == |ls| then None
    else if IsHeader(ls[i], section) then Some(i)
    else FirstHeader(ls, section, i + 1)
  }

  /** The last key line before the next header, or `last` if there is none. */
  function LastKey(ls: File, last: nat, i: nat): (r: nat)
    requires last < i <= |ls|
    ensures last <= r < |ls| && (r == last || i <= r)
    ensures forall k :: i <= k <= r ==> !ls[k].Header?
    decreases |ls| - i
  {
    if i == |ls| || ls[i].Header? then last
    else LastKey(ls, if ls[i].Key? then i else last, i + 1)
  }

  /** `_insert_at` of spe/config.py, which is given the header. */
  function InsertAt(ls: File, header: nat): (at: nat)
    requires header < |ls|
    ensures header < at <= |ls|
    ensures forall k :: header < k < at ==> !ls[k].Header?
  {
    LastKey(ls, header, header + 1) + 1
  }

  lemma {:induction false} KeyPlaceInside(ls: File, section: string, last: nat, i: nat)
    requires last < i <= |ls|
    ensures KeyPlace(ls, section, Some(section), Some(last + 1), i) == Some(LastKey(ls, last, i) + 1)
    decreases |ls| - i
  {
    if i < |ls| && !ls[i].Header? {
      KeyPlaceInside(ls, section, if ls[i].Key? then i else last, i + 1);
    }
  }

  lemma {:induction false} KeyPlaceFrom(ls: File, section: string, cur: Option<string>, i: nat)
    requires i <= |ls| && cur != Some(section)
    ensures KeyPlace(ls, section, cur, None, i) ==
            match FirstHeader(ls, section, i) {
              case None => None
              case Some(h) => Some(InsertAt(ls, h))
            }
    decreases |ls| - i
  {
    if i < |ls| {
      if IsHeader(ls[i], section) {
        KeyPlaceInside(ls, section, i, i + 1);
      } else {
        KeyPlaceFrom(ls, section, if ls[i].Header? then Some(ls[i].name) else cur, i + 1);
      }
    }
  }

  /** The two editors put a new key at the same place in every file, duplicate sections and
      all. */
  lemma InsertionPlacesAgree(ls: File, section: string)
    ensures HasSection(ls, section) ==>
              FirstHeader(ls, section, 0).Some? &&
              KeyPlace(ls, section, None, None, 0) == Some(InsertAt(ls, FirstHeader(ls, section, 0).value))
    ensures !HasSection(ls, section) ==>
              FirstHeader(ls, section, 0) == None && KeyPlace(ls, section, None, None, 0) == None
  {
    KeyPlaceFrom(ls, section, None, 0);
  }

  lemma {:induction false} LastKeyIsLast(ls: File, last: nat, i: nat, k: nat)
    requires last < i <= k < |ls| && ls[k].Key? && forall j :: i <= j <= k ==> !ls[j].Header?
    ensures LastKey(ls, last, i) >= k
    decreases |ls| - i
  {
    if i < k {
      LastKeyIsLast(ls, if ls[i].Key? then i else last, i + 1, k);
    }
  }

  lemma {:induction false} LastKeyIsKey(ls: File, last: nat, i: nat)
    requires last < i <= |ls|
    ensures var r := LastKey(ls, last, i); r == last || ls[r].Key?
    decreases |ls| - i
  {
    if i < |ls| && !ls[i].Header? {
      LastKeyIsKey(ls, if ls[i].Key? then i else last, i + 1);
    }
  }

  /** A new key goes right below the last key of its section's block, or below the header of a
      block that has none. */
  lemma InsertAtIsBelowLastKey(ls: File, header: nat)
    requires header < |ls|
    ensures var at := InsertAt(ls, header);
            && (at - 1 == header || ls[at - 1].Key?)
            && (forall k :: at <= k < |ls| && (forall j :: header < j <= k ==> !ls[j].Header?) ==> !ls[k].Key?)
  {
    var at := InsertAt(ls, header);
    LastKeyIsKey(ls, header, header + 1);
    forall k | at <= k < |ls| && (forall j :: header < j <= k ==> !ls[j].Header?)
      ensures !ls[k].Key?
    {
      if ls[k].Key? {
        LastKeyIsLast(ls, header, header + 1, k);
      }
    }
  }

  lemma InsertAtIsInside(ls: File, header: nat, section: string)
    requires header < |ls| && IsHeader(ls[header], section)
    ensures SectionAfter(ls[..InsertAt(ls, header)], None) == Some(section)
  {
    var at := InsertAt(ls, header);
    var above, rest := ls[..header], ls[header + 1..at];
    assert ls[..at] == above + ([ls[header]] + rest);
    SectionAfterSum(above, [ls[header]] + rest, None);
    assert ([ls[header]] + rest)[1..] == rest;
    NoHeaderNoSection(rest, Some(section));
  }

  function InsertKey(ls: File, c: Change): File {
    var header := FirstHeader(ls, c.slot.section, 0);
    if header.None? then ls
    else Inserted(ls, InsertAt(ls, header.value), [NewLine(c.slot.key, c.value, "")])
  }

  /** The file with a new key: every line where it was, and the key below the last of its
      section's first block. */
  lemma KeyStandsLast(ls: File, c: Change)
    requires HasSection(ls, c.slot.section)
    ensures var h := FirstHeader(ls, c.slot.section, 0);
            && h.Some?
            && var at, out := InsertAt(ls, h.value), InsertKey(ls, c);
               |out| == |ls| + 1 && out[..at] == ls[..at] && out[at + 1..] == ls[at..]
               && out[at] == Key("  ", c.slot.key, ": ", c.value, "", "")
  {
    InsertionPlacesAgree(ls, c.slot.section);
  }

  // ------------------------------------------------------------ one change to a file

  function Edit(ls: File, c: Change): File {
    var r := SetOne(ls, None, c);
    if r.1 then r.0 else InsertKey(ls, c)
  }

  lemma InsertKeyReads(ls: File, c: Change, s: Slot)
    requires HasSection(ls, c.slot.section) && FirstLine(ls, None, c.slot) == None
    ensures FirstLine(InsertKey(ls, c), None, s) ==
            if s == c.slot then Some(NewLine(s.key, c.value, "")) else FirstLine(ls, None, s)
  {
    InsertionPlacesAgree(ls, c.slot.section);
    var header := FirstHeader(ls, c.slot.section, 0).value;
    InsertAtIsInside(ls, header, c.slot.section);
    var l := NewLine(c.slot.key, c.value, "");
    assert [l][0] == l && [l][1..] == [];
    assert FirstLine([l], Some(c.slot.section), s) == if s == c.slot then Some(l) else None;
    KeysInserted(ls, InsertAt(ls, header), [l], s, c.slot.section);
  }

  lemma InsertKeySections(ls: File, c: Change, section: string)
    ensures HasSection(InsertKey(ls, c), section) <==> HasSection(ls, section)
  {
    hide HasSection;
    var header := FirstHeader(ls, c.slot.section, 0);
    if header.Some? {
      var l := NewLine(c.slot.key, c.value, "");
      HasSectionOfInserted(ls, InsertAt(ls, header.value), [l], section);
      HasSectionOne(l, section);
    }
  }

  /** An edit in a section that exists: the key reads as written, every other key keeps its
      line, no section comes or goes, and no line is lost. */
  lemma EditLaw(ls: File, c: Change, s: Slot)
    requires HasSection(ls, c.slot.section)
    ensures Settled(Edit(ls, c), c)
    ensures s != c.slot ==> FirstLine(Edit(ls, c), None, s) == FirstLine(ls, None, s)
    ensures forall x :: HasSection(Edit(ls, c), x) <==> HasSection(ls, x)
    ensures Survives(ls, Edit(ls, c))
  {
    hide HasSection, FirstLine, Survives, SetOne, InsertKey, Inserted;
    SetOneReads(ls, None, c, s);
    SetOneReads(ls, None, c, c.slot);
    SetOneSurvives(ls, None, c);
    if FirstLine(ls, None, c.slot).None? {
      InsertKeyReads(ls, c, s);
      InsertKeyReads(ls, c, c.slot);
      InsertKeySurvives(ls, c);
    }
    forall x
      ensures HasSection(Edit(ls, c), x) <==> HasSection(ls, x)
    {
      SetOneSections(ls, None, c, x);
      InsertKeySections(ls, c, x);
    }
  }

  lemma InsertKeySurvives(ls: File, c: Change)
    ensures Survives(ls, InsertKey(ls, c))
  {
    hide Survives;
    var header := FirstHeader(ls, c.slot.section, 0);
    if header.Some? {
      InsertedSurvives(ls, InsertAt(ls, header.value), [NewLine(c.slot.key, c.value, "")]);
    } else {
      SurvivesItself(ls);
    }
  }

  // ------------------------------------------------------------ sections made from scratch

  /** The words of the templates: a block's leading comment lines and each key's remark. Every
      statement here holds whatever they are. */
  datatype Wording = Wording(notes: string -> seq<string>, remark: Slot -> string)

  /** A template's keys and their defaults, in render order. */
  function Template(section: string): seq<(string, string)> {
    if section == "radio" then [("kind", "none")]
    else if section == "flex" then
      [("enabled", "false"), ("host", "\"\""), ("port", "4992"), ("slice_rx", "0"), ("tune_power_watts", "10")]
    else if section == "tci" then
      [("host", "\"127.0.0.1\""), ("port", "50001"), ("trx", "0"), ("mode", "CW"), ("tune_drive", "0")]
    else []
  }

  const TEMPLATES := ["radio", "flex", "tci"]

  function ValueIn(cs: seq<Change>, s: Slot): Option<string> {
    if cs == [] then None
    else if cs[0].slot == s then Some(cs[0].value)
    else ValueIn(cs[1..], s)
  }

  function ValueOr(cs: seq<Change>, s: Slot, default: string): string {
    if ValueIn(cs, s).Some? then ValueIn(cs, s).value else default
  }

  function TemplateLines(section: string, keys: seq<(string, string)>, cs: seq<Change>, w: Wording): (r: File)
    ensures forall i :: 0 <= i < |r| ==> !r[i].Header?
  {
    if keys == [] then []
    else
      var s := Slot(section, keys[0].0);
      [NewLine(s.key, ValueOr(cs, s, keys[0].1), w.remark(s))] + TemplateLines(section, keys[1..], cs, w)
  }

  predicate InTemplate(keys: seq<(string, string)>, key: string) {
    exists i :: 0 <= i < |keys| && keys[i].0 == key
  }

  function ExtraLines(section: string, cs: seq<Change>): (r: File)
    ensures forall i :: 0 <= i < |r| ==> !r[i].Header?
  {
    if cs == [] then []
    else
      (if cs[0].slot.section == section && !InTemplate(Template(section), cs[0].slot.key)
       then [NewLine(cs[0].slot.key, cs[0].value, "")] else [])
      + ExtraLines(section, cs[1..])
  }

  function Notes(texts: seq<string>): (r: File)
    ensures |r| == |texts| && forall i :: 0 <= i < |r| ==> r[i] == Other(texts[i])
  {
    seq(|texts|, i requires 0 <= i < |texts| => Other(texts[i]))
  }

  /** A new section: comment lines, its header, and lines without a header. */
  datatype Block = Block(notes: seq<string>, section: string, body: File)

  function Lines(b: Block): File {
    Notes(b.notes) + ([Header(b.section, "")] + b.body)
  }

  predicate Flat(b: Block) {
    forall i :: 0 <= i < |b.body| ==> !b.body[i].Header?
  }

  /** `_render_section` for the changes that name this section. */
  function RenderSection(section: string, cs: seq<Change>, w: Wording): (b: Block)
    ensures Flat(b) && b.section == section
  {
    Block(w.notes(section), section, TemplateLines(section, Template(section), cs, w) + ExtraLines(section, cs))
  }

  lemma {:induction false} NotesAreSilent(ls: File, cur: Option<string>, s: Slot)
    requires forall i :: 0 <= i < |ls| ==> ls[i].Other?
    ensures FirstLine(ls, cur, s) == None && SectionAfter(ls, cur) == cur && !HasSection(ls, s.section)
  {
    if ls != [] {
      NotesAreSilent(ls[1..], cur, s);
    }
  }

  /** A key's default, by its place in a template. */
  function DefaultOf(keys: seq<(string, string)>, key: string): Option<string> {
    if keys == [] then None
    else if keys[0].0 == key then Some(keys[0].1)
    else DefaultOf(keys[1..], key)
  }

  /** What a section made from scratch gives a key: the value written, or else its default. */
  function FreshValue(cs: seq<Change>, s: Slot): Option<string> {
    if ValueIn(cs, s).Some? then ValueIn(cs, s) else DefaultOf(Template(s.section), s.key)
  }

  lemma {:induction false} DefaultIsTemplate(keys: seq<(string, string)>, key: string)
    ensures DefaultOf(keys, key).Some? <==> InTemplate(keys, key)
  {
    if keys != [] {
      DefaultIsTemplate(keys[1..], key);
      if keys[0].0 != key && InTemplate(keys, key) {
        var i :| 0 <= i < |keys| && keys[i].0 == key;
        assert keys[1..][i - 1].0 == key;
      }
      if InTemplate(keys[1..], key) {
        var i :| 0 <= i < |keys[1..]| && keys[1..][i].0 == key;
        assert keys[i + 1].0 == key;
      }
    }
  }

  lemma {:induction false} TemplateReads(section: string, keys: seq<(string, string)>, cs: seq<Change>, w: Wording, key: string)
    ensures var s := Slot(section, key);
            var l, default := FirstLine(TemplateLines(section, keys, cs, w), Some(section), s), DefaultOf(keys, key);
            if default.None? then l == None else Written(l, Change(s, ValueOr(cs, s, default.value)))
  {
    if keys != [] {
      TemplateReads(section, keys[1..], cs, w, key);
    }
  }

  lemma {:induction false} ExtraReads(section: string, cs: seq<Change>, key: string)
    requires !InTemplate(Template(section), key)
    ensures var l := FirstLine(ExtraLines(section, cs), Some(section), Slot(section, key));
            var v := ValueIn(cs, Slot(section, key));
            if v.None? then l == None else Written(l, Change(Slot(section, key), v.value))
  {
    if cs != [] {
      hide Template, InTemplate;
      ExtraReads(section, cs[1..], key);
      var first := if cs[0].slot.section == section && !InTemplate(Template(section), cs[0].slot.key)
                   then [NewLine(cs[0].slot.key, cs[0].value, "")] else [];
      var s := Slot(section, key);
      FirstOfSum(first, ExtraLines(section, cs[1..]), Some(section), s);
      if first != [] {
        assert first[1..] == [] && first[0] == NewLine(cs[0].slot.key, cs[0].value, "");
      }
      NoHeaderNoSection(first, Some(section));
    }
  }

  lemma BlockReads(b: Block, cur: Option<string>, s: Slot)
    requires Flat(b)
    ensures FirstLine(Lines(b), cur, s) == if s.section == b.section then FirstLine(b.body, Some(b.section), s) else None
    ensures SectionAfter(Lines(b), cur) == Some(b.section)
  {
    var notes, head := Notes(b.notes), [Header(b.section, "")];
    NotesAreSilent(notes, cur, s);
    FirstOfSum(notes, head + b.body, cur, s);
    SectionAfterSum(notes, head + b.body, cur);
    TailOfCons(Header(b.section, ""), b.body);
    NoHeaderNoSection(b.body, Some(b.section));
    if s.section != b.section {
      NoHeaderAdds(b.body, s.section);
      NoSectionNoKey(b.body, Some(b.section), s);
    }
  }

  lemma BlockSections(b: Block, x: string)
    requires Flat(b)
    ensures HasSection(Lines(b), x) <==> x == b.section
  {
    var head := [Header(b.section, "")];
    HasSectionSum(Notes(b.notes), head + b.body, x);
    HasSectionSum(head, b.body, x);
    HasSectionOne(head[0], x);
    NotesAreSilent(Notes(b.notes), None, Slot(x, ""));
    NoHeaderAdds(b.body, x);
  }

  /** A rendered section reads back every change that names it, every other key of its template
      by its default, and nothing else. */
  lemma RenderReads(section: string, cs: seq<Change>, w: Wording, key: string)
    ensures var s := Slot(section, key);
            var l, value := FirstLine(RenderSection(section, cs, w).body, Some(section), s), FreshValue(cs, s);
            if value.None? then l == None else Written(l, Change(s, value.value))
  {
    hide Template, InTemplate;
    var keys, extra := TemplateLines(section, Template(section), cs, w), ExtraLines(section, cs);
    FirstOfSum(keys, extra, Some(section), Slot(section, key));
    NoHeaderNoSection(keys, Some(section));
    TemplateReads(section, Template(section), cs, w, key);
    DefaultIsTemplate(Template(section), key);
    if !InTemplate(Template(section), key) {
      ExtraReads(section, cs, key);
    }
  }

  // ------------------------------------------------------------ placing a new block

  const LOGGING := "logging"

  predicate Blank(l: Line) {
    l.Other? && AllSpace(l.text)
  }

  /** `_insert_block`: above `logging:` and a blank line, or at the end below one. */
  function InsertBlock(ls: File, b: Block): File {
    var at := FirstHeader(ls, LOGGING, 0);
    if at.Some? then Inserted(ls, at.value, Lines(b.(body := b.body + [Other("")])))
    else if ls != [] && !Blank(ls[|ls| - 1]) then Inserted(ls, |ls|, Lines(b.(notes := [""] + b.notes)))
    else Inserted(ls, |ls|, Lines(b))
  }

  lemma BeforeHeader(ls: File, s: Slot, a: Option<string>, b: Option<string>)
    requires ls == [] || ls[0].Header?
    ensures FirstLine(ls, a, s) == FirstLine(ls, b, s)
  {
  }

  /** A new section put where a header or nothing follows brings its own keys and leaves all
      others. */
  lemma BlockInserted(ls: File, at: nat, b: Block, s: Slot)
    requires at <= |ls| && (at == |ls| || ls[at].Header?)
    requires !HasSection(ls, b.section) && Flat(b)
    ensures FirstLine(Inserted(ls, at, Lines(b)), None, s) ==
            if s.section == b.section then FirstLine(b.body, Some(b.section), s) else FirstLine(ls, None, s)
    ensures HasSection(Inserted(ls, at, Lines(b)), s.section) <==> HasSection(ls, s.section) || s.section == b.section
  {
    hide Inserted, Lines, HasSection, FirstLine;
    var cur := SectionAfter(ls[..at], None);
    FirstOfInserted(ls, at, Lines(b), s);
    BlockReads(b, cur, s);
    BeforeHeader(ls[at..], s, cur, Some(b.section));
    HasSectionOfInserted(ls, at, Lines(b), s.section);
    BlockSections(b, s.section);
    if s.section == b.section {
      NoSectionNoKey(ls, None, s);
    }
  }

  lemma BlankAfter(body: File, cur: Option<string>, s: Slot)
    ensures FirstLine(body + [Other("")], cur, s) == FirstLine(body, cur, s)
  {
    FirstOfSum(body, [Other("")], cur, s);
  }

  lemma InsertBlockLaw(ls: File, b: Block, s: Slot)
    requires !HasSection(ls, b.section) && Flat(b)
    ensures FirstLine(InsertBlock(ls, b), None, s) ==
            if s.section == b.section then FirstLine(b.body, Some(b.section), s) else FirstLine(ls, None, s)
    ensures HasSection(InsertBlock(ls, b), s.section) <==> HasSection(ls, s.section) || s.section == b.section
    ensures Survives(ls, InsertBlock(ls, b))
  {
    hide Inserted, Lines, HasSection, FirstLine, Survives;
    var at := FirstHeader(ls, LOGGING, 0);
    var above, below := b.(notes := [""] + b.notes), b.(body := b.body + [Other("")]);
    if at.Some? {
      BlockInserted(ls, at.value, below, s);
      BlankAfter(b.body, Some(b.section), s);
      InsertedSurvives(ls, at.value, Lines(below));
    } else if ls != [] && !Blank(ls[|ls| - 1]) {
      BlockInserted(ls, |ls|, above, s);
      InsertedSurvives(ls, |ls|, Lines(above));
    } else {
      BlockInserted(ls, |ls|, b, s);
      InsertedSurvives(ls, |ls|, Lines(b));
    }
  }

  // ------------------------------------------------------------ a whole set of changes

  predicate Distinct(cs: seq<Change>) {
    forall i, j :: 0 <= i < j < |cs| ==> cs[i].slot != cs[j].slot
  }

  predicate Names(cs: seq<Change>, s: Slot) {
    exists i :: 0 <= i < |cs| && cs[i].slot == s
  }

  /** The changes whose section the file already has, applied one after another. */
  function Direct(ls: File, cs: seq<Change>): File
    decreases |cs|
  {
    if cs == [] then ls
    else Direct(if HasSection(ls, cs[0].slot.section) then Edit(ls, cs[0]) else ls, cs[1..])
  }

  /** The changes left for sections to be made. */
  function Absent(ls: File, cs: seq<Change>): (r: seq<Change>)
    ensures forall c :: c in r <==> c in cs && !HasSection(ls, c.slot.section)
  {
    if cs == [] then []
    else (if HasSection(ls, cs[0].slot.section) then [] else [cs[0]]) + Absent(ls, cs[1..])
  }

  predicate NoRepeat(names: seq<string>) {
    forall i, j :: 0 <= i < j < |names| ==> names[i] != names[j]
  }

  lemma NoRepeatSum(a: seq<string>, b: seq<string>)
    requires NoRepeat(a) && NoRepeat(b) && forall x :: x in a ==> x !in b
    ensures NoRepeat(a + b)
  {
    var s := a + b;
    forall i, j | 0 <= i < j < |s|
      ensures s[i] != s[j]
    {
      assert i < |a| ==> s[i] in a;
      assert j >= |a| ==> s[j] in b;
    }
  }

  /** The sections named, each once, in the order they first appear. */
  function SectionNames(cs: seq<Change>): (r: seq<string>)
    ensures NoRepeat(r)
    ensures forall x :: x in r <==> exists i :: 0 <= i < |cs| && cs[i].slot.section == x
  {
    if cs == [] then []
    else
      var before := SectionNames(cs[..|cs| - 1]);
      var last := cs[|cs| - 1].slot.section;
      assert forall i :: 0 <= i < |cs| - 1 ==> cs[..|cs| - 1][i] == cs[i];
      assert forall x :: x in before <==> exists i :: 0 <= i < |cs| - 1 && cs[i].slot.section == x;
      if last in before then before else before + [last]
  }

  function Among(names: seq<string>, those: seq<string>, wanted: bool): (r: seq<string>)
    requires NoRepeat(names)
    ensures NoRepeat(r)
    ensures forall x :: x in r <==> x in names && (x in those <==> wanted)
  {
    if names == [] then []
    else
      assert names == [names[0]] + names[1..];
      assert forall i :: 0 <= i < |names[1..]| ==> names[1..][i] == names[i + 1];
      assert names[0] !in names[1..];
      (if names[0] in those <==> wanted then [names[0]] else []) + Among(names[1..], those, wanted)
  }

  /** Templated sections first, in template order. */
  function RenderOrder(pending: seq<Change>): (r: seq<string>)
    ensures NoRepeat(r)
    ensures forall x :: x in r <==> exists i :: 0 <= i < |pending| && pending[i].slot.section == x
  {
    var names := SectionNames(pending);
    assert NoRepeat(TEMPLATES);
    var first, others := Among(TEMPLATES, names, true), Among(names, TEMPLATES, false);
    NoRepeatSum(first, others);
    first + others
  }

  function AddBlocks(ls: File, names: seq<string>, pending: seq<Change>, w: Wording): File
    decreases |names|
  {
    if names == [] then ls
    else AddBlocks(InsertBlock(ls, RenderSection(names[0], pending, w)), names[1..], pending, w)
  }

  /** `_apply` on lines. */
  function Apply(ls: File, cs: seq<Change>, w: Wording): File {
    var pending := Absent(ls, cs);
    AddBlocks(Direct(ls, cs), RenderOrder(pending), pending, w)
  }

  // ------------------------------------------------------------ the laws of editing

  lemma {:induction false} DirectKeepsOthers(ls: File, cs: seq<Change>, s: Slot)
    requires !Names(cs, s)
    ensures FirstLine(Direct(ls, cs), None, s) == FirstLine(ls, None, s)
    decreases |cs|
  {
    if cs != [] {
      hide Edit, FirstLine, HasSection;
      var rest := cs[1..];
      forall i | 0 <= i < |rest|
        ensures rest[i].slot != s
      {
        assert rest[i] == cs[i + 1];
      }
      var next := if HasSection(ls, cs[0].slot.section) then Edit(ls, cs[0]) else ls;
      if HasSection(ls, cs[0].slot.section) {
        EditLaw(ls, cs[0], s);
      }
      DirectKeepsOthers(next, cs[1..], s);
    }
  }

  lemma {:induction false} DirectKeepsSections(ls: File, cs: seq<Change>)
    ensures forall x :: HasSection(Direct(ls, cs), x) <==> HasSection(ls, x)
    ensures Survives(ls, Direct(ls, cs))
    decreases |cs|
  {
    hide Edit, HasSection, Survives;
    if cs == [] {
      SurvivesItself(ls);
    } else {
      var next := if HasSection(ls, cs[0].slot.section) then Edit(ls, cs[0]) else ls;
      if HasSection(ls, cs[0].slot.section) {
        EditLaw(ls, cs[0], cs[0].slot);
      } else {
        SurvivesItself(ls);
      }
      DirectKeepsSections(next, cs[1..]);
      SurvivesTwice(ls, next, Direct(next, cs[1..]));
    }
  }

  lemma DistinctTail(cs: seq<Change>)
    requires Distinct(cs) && cs != []
    ensures Distinct(cs[1..]) && !Names(cs[1..], cs[0].slot)
    ensures forall c :: c in cs ==> c == cs[0] || c in cs[1..]
  {
    assert forall i :: 0 <= i < |cs[1..]| ==> cs[1..][i] == cs[i + 1];
    assert cs == [cs[0]] + cs[1..];
  }

  lemma {:induction false} DirectSettles(ls: File, cs: seq<Change>, c: Change)
    requires Distinct(cs) && c in cs && HasSection(ls, c.slot.section)
    ensures Settled(Direct(ls, cs), c)
    decreases |cs|
  {
    hide Edit, FirstLine, HasSection;
    DistinctTail(cs);
    var next := if HasSection(ls, cs[0].slot.section) then Edit(ls, cs[0]) else ls;
    if HasSection(ls, cs[0].slot.section) {
      EditLaw(ls, cs[0], cs[0].slot);
    }
    if c == cs[0] {
      DirectKeepsOthers(next, cs[1..], c.slot);
    } else {
      DirectSettles(next, cs[1..], c);
    }
  }

  predicate NewNames(ls: File, names: seq<string>) {
    NoRepeat(names) && forall i :: 0 <= i < |names| ==> !HasSection(ls, names[i])
  }

  lemma NewNamesNext(ls: File, names: seq<string>, b: Block)
    requires NewNames(ls, names) && names != [] && b.section == names[0] && Flat(b)
    ensures NewNames(InsertBlock(ls, b), names[1..])
    ensures names[0] !in names[1..]
  {
    hide InsertBlock, HasSection;
    var rest := names[1..];
    assert forall i :: 0 <= i < |rest| ==> rest[i] == names[i + 1];
    forall i | 0 <= i < |rest|
      ensures !HasSection(InsertBlock(ls, b), rest[i])
    {
      InsertBlockLaw(ls, b, Slot(rest[i], ""));
    }
  }

  lemma {:induction false} AddBlocksKeepsOthers(ls: File, names: seq<string>, pending: seq<Change>, w: Wording, s: Slot)
    requires NewNames(ls, names) && s.section !in names
    ensures FirstLine(AddBlocks(ls, names, pending, w), None, s) == FirstLine(ls, None, s)
    ensures HasSection(AddBlocks(ls, names, pending, w), s.section) <==> HasSection(ls, s.section)
    decreases |names|
  {
    if names != [] {
      hide InsertBlock, RenderSection, FirstLine, HasSection;
      var b := RenderSection(names[0], pending, w);
      NewNamesNext(ls, names, b);
      assert names[0] in names && forall x :: x in names[1..] ==> x in names;
      InsertBlockLaw(ls, b, s);
      AddBlocksKeepsOthers(InsertBlock(ls, b), names[1..], pending, w, s);
    }
  }

  lemma {:induction false} AddBlocksSettles(ls: File, names: seq<string>, pending: seq<Change>, w: Wording, c: Change)
    requires NewNames(ls, names) && c.slot.section in names && FreshValue(pending, c.slot) == Some(c.value)
    ensures Settled(AddBlocks(ls, names, pending, w), c)
    ensures HasSection(AddBlocks(ls, names, pending, w), c.slot.section)
    decreases |names|
  {
    hide InsertBlock, RenderSection, FirstLine, HasSection, FreshValue;
    var b := RenderSection(names[0], pending, w);
    NewNamesNext(ls, names, b);
    assert names == [names[0]] + names[1..];
    var next := InsertBlock(ls, b);
    if c.slot.section == names[0] {
      RenderReads(names[0], pending, w, c.slot.key);
      InsertBlockLaw(ls, b, c.slot);
      AddBlocksKeepsOthers(next, names[1..], pending, w, c.slot);
    } else {
      AddBlocksSettles(next, names[1..], pending, w, c);
    }
  }

  lemma {:induction false} AddBlocksSurvives(ls: File, names: seq<string>, pending: seq<Change>, w: Wording)
    requires NewNames(ls, names)
    ensures Survives(ls, AddBlocks(ls, names, pending, w))
    decreases |names|
  {
    hide InsertBlock, RenderSection, FirstLine, HasSection, Survives;
    if names == [] {
      SurvivesItself(ls);
    } else {
      var b := RenderSection(names[0], pending, w);
      NewNamesNext(ls, names, b);
      InsertBlockLaw(ls, b, Slot("", ""));
      var next := InsertBlock(ls, b);
      AddBlocksSurvives(next, names[1..], pending, w);
      SurvivesTwice(ls, next, AddBlocks(next, names[1..], pending, w));
    }
  }

  lemma {:induction false} ValueInOf(cs: seq<Change>, c: Change)
    requires Distinct(cs) && c in cs
    ensures ValueIn(cs, c.slot) == Some(c.value)
  {
    DistinctTail(cs);
    if c != cs[0] {
      assert Names(cs[1..], c.slot) by {
        var i :| 0 <= i < |cs[1..]| && cs[1..][i] == c;
      }
      ValueInOf(cs[1..], c);
    }
  }

  lemma {:induction false} AbsentDistinct(ls: File, cs: seq<Change>)
    requires Distinct(cs)
    ensures Distinct(Absent(ls, cs))
  {
    if cs != [] {
      hide HasSection;
      DistinctTail(cs);
      AbsentDistinct(ls, cs[1..]);
      var rest := Absent(ls, cs[1..]);
      forall i | 0 <= i < |rest|
        ensures rest[i].slot != cs[0].slot
      {
        assert rest[i] in rest;
        var k :| 0 <= k < |cs[1..]| && cs[1..][k] == rest[i];
        assert cs[k + 1] == rest[i];
      }
      assert ([cs[0]] + rest)[1..] == rest;
    }
  }

  lemma OrderIsNew(ls: File, cs: seq<Change>)
    ensures NewNames(Direct(ls, cs), RenderOrder(Absent(ls, cs)))
  {
    hide RenderOrder, Absent, HasSection, Direct;
    DirectKeepsSections(ls, cs);
    var p := Absent(ls, cs);
    var names := RenderOrder(p);
    forall i | 0 <= i < |names|
      ensures !HasSection(Direct(ls, cs), names[i])
    {
      assert names[i] in names;
      var k :| 0 <= k < |p| && p[k].slot.section == names[i];
      assert p[k] in p;
    }
  }

  /** After any set of changes, every changed key reads its new value and is written as it
      would be written again; every other key that could be read keeps its line; and all lines
      of the file survive in order, but for values. */
  lemma ApplyLaw(ls: File, cs: seq<Change>, w: Wording)
    requires Distinct(cs)
    ensures var out := Apply(ls, cs, w);
            && (forall c :: c in cs ==> Read(out, c.slot) == Some(c.value) && Settled(out, c)
                                        && HasSection(out, c.slot.section))
            && (forall s :: Read(ls, s).Some? && !Names(cs, s) ==> FirstLine(out, None, s) == FirstLine(ls, None, s))
            && Survives(ls, out)
  {
    hide HasSection, FirstLine, Survives, Direct, AddBlocks, RenderOrder, Absent;
    var p := Absent(ls, cs);
    var middle, names := Direct(ls, cs), RenderOrder(p);
    var out := AddBlocks(middle, names, p, w);
    OrderIsNew(ls, cs);
    DirectKeepsSections(ls, cs);
    AddBlocksSurvives(middle, names, p, w);
    SurvivesTwice(ls, middle, out);
    forall c | c in cs
      ensures Settled(out, c) && HasSection(out, c.slot.section)
    {
      ChangeIsSettled(ls, cs, w, c);
    }
    forall s | Read(ls, s).Some? && !Names(cs, s)
      ensures FirstLine(out, None, s) == FirstLine(ls, None, s)
    {
      DirectKeepsOthers(ls, cs, s);
      if !HasSection(ls, s.section) {
        NoSectionNoKey(ls, None, s);
      }
      NotInOrder(ls, cs, s.section);
      AddBlocksKeepsOthers(middle, names, p, w, s);
    }
  }

  lemma NotInOrder(ls: File, cs: seq<Change>, section: string)
    requires HasSection(ls, section)
    ensures section !in RenderOrder(Absent(ls, cs))
  {
    hide HasSection;
    var p := Absent(ls, cs);
    forall k | 0 <= k < |p|
      ensures p[k].slot.section != section
    {
      assert p[k] in p;
    }
  }

  lemma ChangeIsSettled(ls: File, cs: seq<Change>, w: Wording, c: Change)
    requires Distinct(cs) && c in cs
    ensures Settled(Apply(ls, cs, w), c) && HasSection(Apply(ls, cs, w), c.slot.section)
  {
    hide HasSection, FirstLine, Direct, AddBlocks, RenderOrder, Absent;
    var p := Absent(ls, cs);
    var middle, names := Direct(ls, cs), RenderOrder(p);
    OrderIsNew(ls, cs);
    DirectKeepsSections(ls, cs);
    if HasSection(ls, c.slot.section) {
      DirectSettles(ls, cs, c);
      NotInOrder(ls, cs, c.slot.section);
      AddBlocksKeepsOthers(middle, names, p, w, c.slot);
    } else {
      assert c in p;
      var i :| 0 <= i < |p| && p[i] == c;
      assert p[i].slot.section == c.slot.section;
      AbsentDistinct(ls, cs);
      ValueInOf(p, c);
      AddBlocksSettles(middle, names, p, w, c);
    }
  }

  /** A key of a section made from scratch that no change names reads its template's default. */
  lemma FreshSectionDefaults(ls: File, cs: seq<Change>, w: Wording, s: Slot)
    requires Distinct(cs) && !HasSection(ls, s.section) && !Names(cs, s)
    requires exists c :: c in cs && c.slot.section == s.section
    requires DefaultOf(Template(s.section), s.key).Some?
    ensures Read(Apply(ls, cs, w), s) == DefaultOf(Template(s.section), s.key)
  {
    hide HasSection, FirstLine, Direct, AddBlocks, RenderOrder, Absent, DefaultOf, Template;
    var p := Absent(ls, cs);
    var middle, names := Direct(ls, cs), RenderOrder(p);
    OrderIsNew(ls, cs);
    var c :| c in cs && c.slot.section == s.section;
    assert c in p;
    var i :| 0 <= i < |p| && p[i] == c;
    assert p[i].slot.section == s.section;
    NotAmongAbsent(ls, cs, s);
    AddBlocksSettles(middle, names, p, w, Change(s, DefaultOf(Template(s.section), s.key).value));
  }

  lemma {:induction false} NotAmongAbsent(ls: File, cs: seq<Change>, s: Slot)
    requires !Names(cs, s)
    ensures ValueIn(Absent(ls, cs), s) == None
  {
    hide HasSection;
    var p := Absent(ls, cs);
    forall i | 0 <= i < |p|
      ensures p[i].slot != s
    {
      assert p[i] in p;
      var k :| 0 <= k < |cs| && cs[k] == p[i];
    }
    NotIn(p, s);
  }

  lemma {:induction false} NotIn(cs: seq<Change>, s: Slot)
    requires forall i :: 0 <= i < |cs| ==> cs[i].slot != s
    ensures ValueIn(cs, s) == None
  {
    if cs != [] {
      assert forall i :: 0 <= i < |cs[1..]| ==> cs[1..][i] == cs[i + 1];
      NotIn(cs[1..], s);
    }
  }

  // ------------------------------------------------------------ where new sections stand

  lemma {:induction false} FirstHeaderIs(ls: File, section: string, i: nat, h: nat)
    requires i <= h < |ls| && IsHeader(ls[h], section) && forall k :: i <= k < h ==> !IsHeader(ls[k], section)
    ensures FirstHeader(ls, section, i) == Some(h)
  {
  }

  lemma InsertedParts(ls: File, h: nat, block: File, l: Line)
    requires h <= |ls|
    ensures var out, n := Inserted(ls, h, block + [l]), |block|;
            && |out| == |ls| + n + 1 && out[..h] == ls[..h] && out[h..h + n] == block
            && out[h + n] == l && out[h + n + 1..] == ls[h..]
  {
    assert Inserted(ls, h, block + [l]) == ls[..h] + block + [l] + ls[h..];
  }

  lemma BlockLines(b: Block)
    ensures Lines(b.(body := b.body + [Other("")])) == Lines(b) + [Other("")]
    ensures |b.notes| < |Lines(b)| && Lines(b)[|b.notes|] == Header(b.section, "")
  {
  }

  /** Above `logging:`, if there is one: the lines before it, the new section, a blank line, and
      then `logging:` and all that followed it. */
  lemma BlockStandsAboveLogging(ls: File, b: Block)
    requires HasSection(ls, LOGGING) && b.section != LOGGING && Flat(b)
    ensures var out, at, n := InsertBlock(ls, b), FirstHeader(ls, LOGGING, 0), |Lines(b)|;
            && at.Some? && |out| == |ls| + n + 1
            && out[..at.value] == ls[..at.value]
            && out[at.value..at.value + n] == Lines(b) && IsHeader(Lines(b)[|b.notes|], b.section)
            && out[at.value + n] == Other("") && out[at.value + n + 1..] == ls[at.value..]
            && FirstHeader(out, LOGGING, 0) == Some(at.value + n + 1)
  {
    hide Lines, Inserted, HasSection;
    InsertionPlacesAgree(ls, LOGGING);
    var h, block := FirstHeader(ls, LOGGING, 0).value, Lines(b);
    BlockLines(b);
    var out := InsertBlock(ls, b);
    InsertedParts(ls, h, block, Other(""));
    LinesHaveOneHeader(b);
    NoLoggingBefore(ls, h, block, out);
    assert out[h + |block| + 1..][0] == ls[h..][0];
    FirstHeaderIs(out, LOGGING, 0, h + |block| + 1);
  }

  lemma NoLoggingBefore(ls: File, h: nat, block: File, out: File)
    requires h <= |ls| && h + |block| < |out| && out[..h] == ls[..h] && out[h..h + |block|] == block
    requires out[h + |block|].Other?
    requires forall k :: 0 <= k < h ==> !IsHeader(ls[k], LOGGING)
    requires forall k :: 0 <= k < |block| && block[k].Header? ==> block[k].name != LOGGING
    ensures forall k :: 0 <= k < h + |block| + 1 ==> !IsHeader(out[k], LOGGING)
  {
    forall k | 0 <= k < h + |block| + 1
      ensures !IsHeader(out[k], LOGGING)
    {
      if k < h {
        assert out[..h][k] == ls[..h][k];
      } else if k < h + |block| {
        assert out[h..h + |block|][k - h] == block[k - h];
      }
    }
  }

  lemma LinesHaveOneHeader(b: Block)
    requires Flat(b)
    ensures forall k :: 0 <= k < |Lines(b)| && Lines(b)[k].Header? ==> Lines(b)[k].name == b.section
  {
  }

  /** Without a `logging:` section: at the end, a blank line before it unless one is there. */
  lemma BlockStandsAtEnd(ls: File, b: Block)
    requires !HasSection(ls, LOGGING)
    ensures InsertBlock(ls, b) ==
            ls + (if ls != [] && !Blank(ls[|ls| - 1]) then [Other("")] else []) + Lines(b)
  {
    InsertionPlacesAgree(ls, LOGGING);
    var above := Lines(b.(notes := [""] + b.notes));
    assert above == [Other("")] + Lines(b);
    assert ls[..|ls|] == ls && ls[|ls|..] == [];
  }

  function Rank(section: string): (r: nat)
    ensures r <= 3
    ensures section !in TEMPLATES ==> r == 3
  {
    assert TEMPLATES[0] in TEMPLATES && TEMPLATES[1] in TEMPLATES && TEMPLATES[2] in TEMPLATES;
    if section == "radio" then 0 else if section == "flex" then 1 else if section == "tci" then 2 else 3
  }

  predicate InRank(names: seq<string>) {
    forall i, j :: 0 <= i < j < |names| ==> Rank(names[i]) <= Rank(names[j])
  }

  lemma {:induction false} AmongKeepsRank(names: seq<string>, those: seq<string>, wanted: bool)
    requires NoRepeat(names) && InRank(names)
    ensures InRank(Among(names, those, wanted))
  {
    if names != [] {
      hide Rank;
      var rest := names[1..];
      assert forall i :: 0 <= i < |rest| ==> rest[i] == names[i + 1];
      AmongKeepsRank(rest, those, wanted);
      var tail := Among(rest, those, wanted);
      forall i | 0 <= i < |tail|
        ensures Rank(names[0]) <= Rank(tail[i])
      {
        assert tail[i] in tail;
        var k :| 0 <= k < |rest| && rest[k] == tail[i];
        assert names[k + 1] == tail[i];
      }
    }
  }

  lemma RankSum(a: seq<string>, b: seq<string>)
    requires InRank(a) && forall x :: x in b ==> Rank(x) == 3
    ensures InRank(a + b)
  {
    hide Rank;
    var s := a + b;
    forall i, j | 0 <= i < j < |s|
      ensures Rank(s[i]) <= Rank(s[j])
    {
      assert j >= |a| ==> s[j] in b;
    }
  }

  lemma TemplatesInRank()
    ensures NoRepeat(TEMPLATES) && InRank(TEMPLATES)
  {
  }

  /** Missing sections are made in the order radio, flex, tci, any others after them. */
  lemma SectionsInOrder(pending: seq<Change>)
    ensures InRank(RenderOrder(pending))
  {
    hide Rank, Among, SectionNames, InRank, NoRepeat;
    var names := SectionNames(pending);
    TemplatesInRank();
    AmongKeepsRank(TEMPLATES, names, true);
    RankSum(Among(TEMPLATES, names, true), Among(names, TEMPLATES, false));
  }

  lemma {:induction false} DirectAgain(ls: File, cs: seq<Change>)
    requires forall c :: c in cs ==> Settled(ls, c)
    ensures Direct(ls, cs) == ls
    decreases |cs|
  {
    if cs != [] {
      hide FirstLine;
      assert cs[0] in cs && forall c :: c in cs[1..] ==> c in cs;
      SetOneAgain(ls, None, cs[0]);
      DirectAgain(ls, cs[1..]);
    }
  }

  /** Applying the same changes again changes nothing. */
  lemma ApplyTwice(ls: File, cs: seq<Change>, w: Wording)
    requires Distinct(cs)
    ensures Apply(Apply(ls, cs, w), cs, w) == Apply(ls, cs, w)
  {
    hide HasSection, FirstLine, Survives;
    var out := Apply(ls, cs, w);
    ApplyLaw(ls, cs, w);
    DirectAgain(out, cs);
    NothingAbsent(out, cs);
  }

  lemma {:induction false} NothingAbsent(ls: File, cs: seq<Change>)
    requires forall c :: c in cs ==> HasSection(ls, c.slot.section)
    ensures Absent(ls, cs) == [] && RenderOrder([]) == []
  {
    hide HasSection;
    assert Among([], TEMPLATES, false) == [];
    AmongNothing(TEMPLATES);
    if cs != [] {
      assert cs[0] in cs && forall c :: c in cs[1..] ==> c in cs;
      NothingAbsent(ls, cs[1..]);
    }
  }

  lemma {:induction false} AmongNothing(names: seq<string>)
    requires NoRepeat(names)
    ensures Among(names, [], true) == []
  {
    if names != [] {
      var rest := names[1..];
      assert forall i :: 0 <= i < |rest| ==> rest[i] == names[i + 1];
      AmongNothing(rest);
    }
  }

  // ------------------------------------------------------------ the loops

  /** `_set_one`. */
  method SetOneKey(lines: File, c: Change) returns (out: File, done: bool)
    ensures (out, done) == SetOne(lines, None, c)
  {
    out, done := [], false;
    var cur: Option<string>, i := None, 0;
    DropNothing(lines);
    assert [] + SetOne(lines, None, c).0 == SetOne(lines, None, c).0;
    while i < |lines|
      invariant 0 <= i <= |lines|
      invariant !done ==> SetOne(lines, None, c) == (out + SetOne(lines[i..], cur, c).0, SetOne(lines[i..], cur, c).1)
      invariant done ==> SetOne(lines, None, c) == (out + lines[i..], true)
    {
      var line := lines[i];
      assert lines[i..] == [line] + lines[i + 1..];
      TailOfCons(line, lines[i + 1..]);
      SumAssociates(out, [line], lines[i + 1..]);
      if line.Header? {
        cur := Some(line.name);
        SumAssociates(out, [line], SetOne(lines[i + 1..], cur, c).0);
        out := out + [line];
      } else if !done && IsSlot(line, cur, c.slot) {
        SumAssociates(out, [SetLine(line, c.value)], lines[i + 1..]);
        out, done := out + [SetLine(line, c.value)], true;
      } else {
        SumAssociates(out, [line], SetOne(lines[i + 1..], cur, c).0);
        out := out + [line];
      }
      i := i + 1;
    }
    assert lines[i..] == [];
    SumNothing(out);
  }

  /** `_insert_key`. */
  method InsertNewKey(lines: File, c: Change) returns (out: File)
    ensures out == InsertKey(lines, c)
  {
    var at: Option<nat>, cur: Option<string>, i := None, None, 0;
    KeyPlaceFrom(lines, c.slot.section, None, 0);
    var stop := false;
    while i < |lines| && !stop
      invariant 0 <= i <= |lines|
      invariant KeyPlace(lines, c.slot.section, None, None, 0) ==
                if stop then at else KeyPlace(lines, c.slot.section, cur, at, i)
    {
      if lines[i].Header? {
        if cur == Some(c.slot.section) {
          stop := true;
        } else {
          cur := Some(lines[i].name);
          if lines[i].name == c.slot.section {
            at := Some(i + 1);
          }
        }
      } else if cur == Some(c.slot.section) && lines[i].Key? {
        at := Some(i + 1);
      }
      i := i + 1;
    }
    if at.None? {
      return lines;
    }
    return lines[..at.value] + [NewLine(c.slot.key, c.value, "")] + lines[at.value..];
  }

  /** One change in a section the file has. */
  method EditKey(lines: File, c: Change) returns (out: File)
    ensures out == Edit(lines, c)
  {
    hide SetOne, InsertKey;
    var found;
    out, found := SetOneKey(lines, c);
    if !found {
      out := InsertNewKey(lines, c);
    }
  }

  lemma DirectStep(ls: File, c: Change, rest: seq<Change>)
    ensures Direct(ls, [c] + rest) == Direct(if HasSection(ls, c.slot.section) then Edit(ls, c) else ls, rest)
  {
    TailOfCons(c, rest);
  }

  lemma AbsentStep(ls: File, c: Change, rest: seq<Change>)
    ensures Absent(ls, [c] + rest) == (if HasSection(ls, c.slot.section) then [] else [c]) + Absent(ls, rest)
  {
    TailOfCons(c, rest);
  }

  lemma EditKeepsSections(ls: File, c: Change, x: string)
    requires HasSection(ls, c.slot.section)
    ensures HasSection(Edit(ls, c), x) <==> HasSection(ls, x)
  {
    EditLaw(ls, c, c.slot);
  }

  method ApplyDirect(lines: File, cs: seq<Change>) returns (out: File, pending: seq<Change>)
    ensures out == Direct(lines, cs) && pending == Absent(lines, cs)
  {
    hide HasSection, Edit, Direct, Absent;
    out, pending := lines, [];
    var i := 0;
    DropNothing(cs);
    assert [] + Absent(lines, cs) == Absent(lines, cs);
    while i < |cs|
      invariant 0 <= i <= |cs|
      invariant Direct(out, cs[i..]) == Direct(lines, cs)
      invariant pending + Absent(lines, cs[i..]) == Absent(lines, cs)
      invariant forall x :: HasSection(out, x) <==> HasSection(lines, x)
    {
      var c := cs[i];
      ghost var rest := cs[i + 1..];
      assert cs[i..] == [c] + rest;
      DirectStep(out, c, rest);
      AbsentStep(lines, c, rest);
      if !HasSection(out, c.slot.section) {
        SumAssociates(pending, [c], Absent(lines, rest));
        pending := pending + [c];
      } else {
        assert [] + Absent(lines, rest) == Absent(lines, rest);
        forall x
          ensures HasSection(Edit(out, c), x) <==> HasSection(out, x)
        {
          EditKeepsSections(out, c, x);
        }
        out := EditKey(out, c);
      }
      i := i + 1;
    }
    NothingLeft(out, lines, cs[i..]);
    SumNothing(pending);
  }

  lemma NothingLeft(out: File, lines: File, rest: seq<Change>)
    requires rest == []
    ensures Direct(out, rest) == out && Absent(lines, rest) == []
  {
  }

  /** `_apply`. */
  method ApplyChanges(lines: File, cs: seq<Change>, w: Wording) returns (out: File)
    ensures out == Apply(lines, cs, w)
  {
    hide HasSection, Direct, Absent, InsertBlock, RenderSection, RenderOrder;
    var pending;
    out, pending := ApplyDirect(lines, cs);
    var names := RenderOrder(pending);
    var k := 0;
    DropNothing(names);
    while k < |names|
      invariant 0 <= k <= |names|
      invariant AddBlocks(out, names[k..], pending, w) == Apply(lines, cs, w)
    {
      assert names[k..] == [names[k]] + names[k + 1..];
      TailOfCons(names[k], names[k + 1..]);
      out := InsertBlock(out, RenderSection(names[k], pending, w));
      k := k + 1;
    }
  }
}
