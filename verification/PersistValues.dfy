/**
 The server's own configuration editor (`persist_values` in spe/config.py): one pass over the
 file for every key at once, then whatever was missing. A second, independent implementation
 of what ConfigTool does.
 */
module PersistValues {
  import opened Sequences
  import opened Text
  import opened ConfigLines
  import opened ConfigTool

  // ------------------------------------------------------------ the pass

  function PassLine(l: Line, cur: Option<string>, cs: seq<Change>): (r: Line)
    ensures SameButValue(l, r) && (r.Header? <==> l.Header?) && (l.Header? ==> r == l)
  {
    if l.Key? && cur.Some? && ValueIn(cs, Slot(cur.value, l.name)).Some?
    then SetLine(l, ValueIn(cs, Slot(cur.value, l.name)).value) else l
  }

  function Below(l: Line, cur: Option<string>): Option<string> {
    if l.Header? then Some(l.name) else cur
  }

  function OnePass(ls: File, cur: Option<string>, cs: seq<Change>): (r: File)
    ensures |r| == |ls|
  {
    if ls == [] then []
    else [PassLine(ls[0], cur, cs)] + OnePass(ls[1..], Below(ls[0], cur), cs)
  }

  /** Setting keys one at a time. */
  function FoldSet(ls: File, cs: seq<Change>): File
    decreases |cs|
  {
    if cs == [] then ls else FoldSet(SetOne(ls, None, cs[0]).0, cs[1..])
  }

  /** No key of a section, in whatever blocks of that name, is given twice. */
  predicate UniqueKeys(ls: File, cur: Option<string>) {
    ls == [] ||
    (UniqueKeys(ls[1..], Below(ls[0], cur)) &&
     (ls[0].Key? && cur.Some? ==> FirstLine(ls[1..], cur, Slot(cur.value, ls[0].name)) == None))
  }

  lemma {:induction false} SetOneUnique(ls: File, cur: Option<string>, c: Change)
    requires UniqueKeys(ls, cur)
    ensures UniqueKeys(SetOne(ls, cur, c).0, cur)
  {
    if ls != [] {
      var out := SetOne(ls, cur, c).0;
      if IsSlot(ls[0], cur, c.slot) {
        assert out[1..] == ls[1..];
      } else {
        SetOneUnique(ls[1..], Below(ls[0], cur), c);
        assert out[1..] == SetOne(ls[1..], Below(ls[0], cur), c).0;
        if ls[0].Key? && cur.Some? {
          SetOneReads(ls[1..], cur, c, Slot(cur.value, ls[0].name));
        }
      }
    }
  }

  /** A change whose key is not there is one the pass does not see. */
  lemma {:induction false} PassWithout(ls: File, cur: Option<string>, c: Change, cs: seq<Change>)
    requires FirstLine(ls, cur, c.slot) == None
    ensures OnePass(ls, cur, [c] + cs) == OnePass(ls, cur, cs)
  {
    if ls != [] {
      TailOfCons(c, cs);
      PassWithout(ls[1..], Below(ls[0], cur), c, cs);
    }
  }

  lemma {:induction false} PassAfterSet(ls: File, cur: Option<string>, c: Change, cs: seq<Change>)
    requires UniqueKeys(ls, cur) && ValueIn(cs, c.slot) == None
    ensures OnePass(SetOne(ls, cur, c).0, cur, cs) == OnePass(ls, cur, [c] + cs)
  {
    if ls != [] {
      TailOfCons(c, cs);
      var out := SetOne(ls, cur, c).0;
      if IsSlot(ls[0], cur, c.slot) {
        assert out[1..] == ls[1..] && out[0] == SetLine(ls[0], c.value);
        assert ls[0].name == c.slot.key && cur == Some(c.slot.section);
        PassWithout(ls[1..], cur, c, cs);
      } else {
        PassAfterSet(ls[1..], Below(ls[0], cur), c, cs);
        assert out[0] == ls[0] && out[1..] == SetOne(ls[1..], Below(ls[0], cur), c).0;
      }
    }
  }

  lemma {:induction false} PassOfNothing(ls: File, cur: Option<string>)
    ensures OnePass(ls, cur, []) == ls
  {
    if ls != [] {
      PassOfNothing(ls[1..], Below(ls[0], cur));
    }
  }

  lemma {:induction false} NotNamed(cs: seq<Change>, s: Slot)
    ensures ValueIn(cs, s).None? <==> !Names(cs, s)
  {
    if cs != [] {
      NotNamed(cs[1..], s);
      assert cs == [cs[0]] + cs[1..];
      if cs[0].slot != s && Names(cs, s) {
        var i :| 0 <= i < |cs| && cs[i].slot == s;
        assert cs[1..][i - 1].slot == s;
      }
      if Names(cs[1..], s) {
        var i :| 0 <= i < |cs[1..]| && cs[1..][i].slot == s;
        assert cs[i + 1].slot == s;
      }
    }
  }

  /** On a file that gives no key twice, the one pass is the fold of single edits. */
  lemma {:induction false} OnePassIsFold(ls: File, cs: seq<Change>)
    requires UniqueKeys(ls, None) && Distinct(cs)
    ensures OnePass(ls, None, cs) == FoldSet(ls, cs)
    decreases |cs|
  {
    hide SetOne, UniqueKeys, OnePass;
    if cs == [] {
      PassOfNothing(ls, None);
    } else {
      DistinctTail(cs);
      NotNamed(cs[1..], cs[0].slot);
      SetOneUnique(ls, None, cs[0]);
      PassAfterSet(ls, None, cs[0], cs[1..]);
      assert [cs[0]] + cs[1..] == cs;
      OnePassIsFold(SetOne(ls, None, cs[0]).0, cs[1..]);
    }
  }

  ghost predicate SameChanges(cs: seq<Change>, ds: seq<Change>) {
    forall c :: c in cs <==> c in ds
  }

  lemma SameValues(cs: seq<Change>, ds: seq<Change>, s: Slot)
    requires Distinct(cs) && Distinct(ds) && SameChanges(cs, ds)
    ensures ValueIn(cs, s) == ValueIn(ds, s)
  {
    NotNamed(cs, s);
    NotNamed(ds, s);
    if Names(cs, s) {
      var i :| 0 <= i < |cs| && cs[i].slot == s;
      assert cs[i] in cs;
      ValueInOf(cs, cs[i]);
      ValueInOf(ds, cs[i]);
    } else if Names(ds, s) {
      var i :| 0 <= i < |ds| && ds[i].slot == s;
      assert ds[i] in ds;
      ValueInOf(cs, ds[i]);
    }
  }

  lemma {:induction false} PassOfSame(ls: File, cur: Option<string>, cs: seq<Change>, ds: seq<Change>)
    requires forall s :: ValueIn(cs, s) == ValueIn(ds, s)
    ensures OnePass(ls, cur, cs) == OnePass(ls, cur, ds)
  {
    if ls != [] {
      PassOfSame(ls[1..], Below(ls[0], cur), cs, ds);
    }
  }

  /** The one pass equals setting the same keys one at a time in any order. */
  lemma OnePassIsFoldInAnyOrder(ls: File, cs: seq<Change>, ds: seq<Change>)
    requires UniqueKeys(ls, None) && Distinct(cs) && Distinct(ds) && SameChanges(cs, ds)
    ensures OnePass(ls, None, cs) == FoldSet(ls, ds)
  {
    hide OnePass, FoldSet, ValueIn;
    forall s
      ensures ValueIn(cs, s) == ValueIn(ds, s)
    {
      SameValues(cs, ds, s);
    }
    PassOfSame(ls, None, cs, ds);
    OnePassIsFold(ls, ds);
  }

  // ------------------------------------------------------------ what the pass leaves

  lemma {:induction false} PassReads(ls: File, cur: Option<string>, cs: seq<Change>, s: Slot)
    ensures var r := OnePass(ls, cur, cs);
            && FirstLine(r, cur, s) ==
               (if ValueIn(cs, s).Some? then Overwritten(FirstLine(ls, cur, s), ValueIn(cs, s).value)
                else FirstLine(ls, cur, s))
            && SectionAfter(r, cur) == SectionAfter(ls, cur)
  {
    if ls != [] {
      PassReads(ls[1..], Below(ls[0], cur), cs, s);
    }
  }

  lemma {:induction false} PassSections(ls: File, cur: Option<string>, cs: seq<Change>, section: string)
    ensures HasSection(OnePass(ls, cur, cs), section) <==> HasSection(ls, section)
  {
    if ls != [] {
      hide HasSection;
      var rest := OnePass(ls[1..], Below(ls[0], cur), cs);
      assert [ls[0]] + ls[1..] == ls;
      HasSectionSum([ls[0]], ls[1..], section);
      HasSectionSum([PassLine(ls[0], cur, cs)], rest, section);
      HasSectionOne(ls[0], section);
      HasSectionOne(PassLine(ls[0], cur, cs), section);
      PassSections(ls[1..], Below(ls[0], cur), cs, section);
    }
  }

  lemma {:induction false} PassSurvives(ls: File, cur: Option<string>, cs: seq<Change>)
    ensures Survives(ls, OnePass(ls, cur, cs))
  {
    if ls != [] {
      PassSurvives(ls[1..], Below(ls[0], cur), cs);
    }
  }

  // ------------------------------------------------------------ what was missing

  /** The changes whose keys the pass did not meet, in whatever order: the source keeps them
      in a set. */
  ghost predicate IsMissing(ls: File, cs: seq<Change>, m: seq<Change>) {
    Distinct(m) && forall c :: c in m <==> c in cs && FirstLine(ls, None, c.slot) == None
  }

  function KeyBlock(section: string, m: seq<Change>): (r: File)
    ensures forall i :: 0 <= i < |r| ==> r[i].Key?
  {
    if m == [] then []
    else (if m[0].slot.section == section then [NewLine(m[0].slot.key, m[0].value, "")] else [])
         + KeyBlock(section, m[1..])
  }

  function AddMissing(ls: File, section: string, m: seq<Change>): File {
    var block := KeyBlock(section, m);
    var header := FirstHeader(ls, section, 0);
    if block == [] then ls
    else if header.Some? then Inserted(ls, InsertAt(ls, header.value), block)
    else
      Inserted(ls, |ls|, Lines(Block(if ls != [] && !Blank(ls[|ls| - 1]) then [""] else [], section, block)))
  }

  function AddAll(ls: File, names: seq<string>, m: seq<Change>): File
    decreases |names|
  {
    if names == [] then ls else AddAll(AddMissing(ls, names[0], m), names[1..], m)
  }

  function Persist(ls: File, cs: seq<Change>, m: seq<Change>): File {
    AddAll(OnePass(ls, None, cs), SectionNames(cs), m)
  }

  /** Where the missing keys of a section go: below the last key of its first block, or, if the
      section is missing too, at the end of the file below a blank line and its header. */
  lemma MissingStandLast(ls: File, section: string, m: seq<Change>)
    requires KeyBlock(section, m) != []
    ensures var block, out, h := KeyBlock(section, m), AddMissing(ls, section, m), FirstHeader(ls, section, 0);
            if HasSection(ls, section) then
              h.Some? && out == ls[..InsertAt(ls, h.value)] + block + ls[InsertAt(ls, h.value)..]
            else
              out == ls + (if ls != [] && !Blank(ls[|ls| - 1]) then [Other("")] else []) + [Header(section, "")] + block
  {
    hide KeyBlock, Blank, InsertAt, HasSection;
    InsertionPlacesAgree(ls, section);
    if !HasSection(ls, section) {
      var block := KeyBlock(section, m);
      var blank := if ls != [] && !Blank(ls[|ls| - 1]) then [""] else [];
      assert Notes(blank) == if ls != [] && !Blank(ls[|ls| - 1]) then [Other("")] else [];
      assert ls[..|ls|] == ls && ls[|ls|..] == [];
      SumAssociates(ls + Notes(blank), [Header(section, "")], block);
      SumAssociates(ls, Notes(blank), [Header(section, "")] + block);
      SumNothing(ls + (Notes(blank) + ([Header(section, "")] + block)));
    }
  }

  lemma {:induction false} KeyBlockReads(section: string, m: seq<Change>, s: Slot)
    ensures FirstLine(KeyBlock(section, m), Some(section), s) ==
            if s.section == section && ValueIn(m, s).Some? then Some(NewLine(s.key, ValueIn(m, s).value, "")) else None
  {
    if m != [] {
      var first := if m[0].slot.section == section then [NewLine(m[0].slot.key, m[0].value, "")] else [];
      KeyBlockReads(section, m[1..], s);
      FirstOfSum(first, KeyBlock(section, m[1..]), Some(section), s);
      NoHeaderNoSection(first, Some(section));
      if first != [] {
        assert first[0] == NewLine(m[0].slot.key, m[0].value, "") && first[1..] == [];
      }
    }
  }

  /** The first line of a key after the missing ones of a section were added. */
  function AddedLine(ls: File, section: string, m: seq<Change>, s: Slot): Option<Line> {
    if s.section == section && ValueIn(m, s).Some? then Some(NewLine(s.key, ValueIn(m, s).value, ""))
    else FirstLine(ls, None, s)
  }

  predicate Unread(ls: File, section: string, m: seq<Change>) {
    forall i :: 0 <= i < |m| && m[i].slot.section == section ==> FirstLine(ls, None, m[i].slot) == None
  }

  lemma UnreadSlot(ls: File, section: string, m: seq<Change>, s: Slot)
    requires Unread(ls, section, m) && s.section == section && ValueIn(m, s).Some?
    ensures FirstLine(ls, None, s) == None
  {
    NotNamed(m, s);
    var i :| 0 <= i < |m| && m[i].slot == s;
  }

  lemma AddMissingReads(ls: File, section: string, m: seq<Change>, s: Slot)
    requires Unread(ls, section, m)
    ensures FirstLine(AddMissing(ls, section, m), None, s) == AddedLine(ls, section, m, s)
  {
    hide FirstLine, KeyBlock, Inserted, Lines, HasSection, Blank, Unread;
    var block, header := KeyBlock(section, m), FirstHeader(ls, section, 0);
    KeyBlockReads(section, m, s);
    if s.section == section && ValueIn(m, s).Some? {
      UnreadSlot(ls, section, m, s);
    }
    InsertionPlacesAgree(ls, section);
    if block == [] {
      NothingRead(Some(section), s);
    } else if header.Some? {
      InsertAtIsInside(ls, header.value, section);
      KeysInserted(ls, InsertAt(ls, header.value), block, s, section);
    } else {
      var b := Block(if ls != [] && !Blank(ls[|ls| - 1]) then [""] else [], section, block);
      BlockInserted(ls, |ls|, b, s);
      if s.section == section {
        NoSectionNoKey(ls, None, s);
      }
    }
  }

  lemma NothingRead(cur: Option<string>, s: Slot)
    ensures FirstLine([], cur, s) == None
  {
  }

  lemma AddMissingSurvives(ls: File, section: string, m: seq<Change>)
    ensures Survives(ls, AddMissing(ls, section, m))
  {
    hide Survives, KeyBlock, Inserted, Lines, Blank;
    var block, header := KeyBlock(section, m), FirstHeader(ls, section, 0);
    if block == [] {
      SurvivesItself(ls);
    } else if header.Some? {
      InsertedSurvives(ls, InsertAt(ls, header.value), block);
    } else {
      InsertedSurvives(ls, |ls|,
                       Lines(Block(if ls != [] && !Blank(ls[|ls| - 1]) then [""] else [], section, block)));
    }
  }

  predicate UnreadAll(ls: File, names: seq<string>, m: seq<Change>) {
    NoRepeat(names) && forall k :: 0 <= k < |names| ==> Unread(ls, names[k], m)
  }

  lemma UnreadNext(ls: File, names: seq<string>, m: seq<Change>)
    requires UnreadAll(ls, names, m) && names != []
    ensures UnreadAll(AddMissing(ls, names[0], m), names[1..], m) && names[0] !in names[1..]
  {
    hide AddMissing, FirstLine;
    var rest := names[1..];
    assert forall k :: 0 <= k < |rest| ==> rest[k] == names[k + 1];
    forall k | 0 <= k < |rest|
      ensures Unread(AddMissing(ls, names[0], m), rest[k], m)
    {
      forall i | 0 <= i < |m| && m[i].slot.section == rest[k]
        ensures FirstLine(AddMissing(ls, names[0], m), None, m[i].slot) == None
      {
        assert Unread(ls, names[k + 1], m);
        AddMissingReads(ls, names[0], m, m[i].slot);
      }
    }
  }

  lemma {:induction false} AddAllReads(ls: File, names: seq<string>, m: seq<Change>, s: Slot)
    requires UnreadAll(ls, names, m)
    ensures FirstLine(AddAll(ls, names, m), None, s) ==
            if s.section in names then AddedLine(ls, s.section, m, s) else FirstLine(ls, None, s)
    ensures Survives(ls, AddAll(ls, names, m))
    decreases |names|
  {
    hide AddMissing, FirstLine, Survives;
    if names == [] {
      SurvivesItself(ls);
    } else {
      assert names == [names[0]] + names[1..];
      var next := AddMissing(ls, names[0], m);
      AddMissingReads(ls, names[0], m, s);
      AddMissingSurvives(ls, names[0], m);
      UnreadNext(ls, names, m);
      AddAllReads(next, names[1..], m, s);
      SurvivesTwice(ls, next, AddAll(next, names[1..], m));
    }
  }

  lemma MissingIsUnread(ls: File, cs: seq<Change>, m: seq<Change>)
    requires IsMissing(ls, cs, m)
    ensures UnreadAll(OnePass(ls, None, cs), SectionNames(cs), m)
  {
    hide OnePass, FirstLine, SectionNames;
    forall k, i | 0 <= k < |SectionNames(cs)| && 0 <= i < |m| && m[i].slot.section == SectionNames(cs)[k]
      ensures FirstLine(OnePass(ls, None, cs), None, m[i].slot) == None
    {
      assert m[i] in m;
      PassReads(ls, None, cs, m[i].slot);
    }
  }

  /** Where a key is read from after `persist_values`, in any order of the missing keys. */
  lemma PersistReads(ls: File, cs: seq<Change>, m: seq<Change>, s: Slot)
    requires Distinct(cs) && IsMissing(ls, cs, m)
    ensures FirstLine(Persist(ls, cs, m), None, s) ==
            match ValueIn(cs, s) {
              case None => FirstLine(ls, None, s)
              case Some(v) =>
                if FirstLine(ls, None, s).Some? then Overwritten(FirstLine(ls, None, s), v)
                else Some(NewLine(s.key, v, ""))
            }
    ensures Survives(ls, Persist(ls, cs, m))
  {
    hide OnePass, FirstLine, SectionNames, AddAll, Survives, IsMissing, UnreadAll;
    var names := SectionNames(cs);
    var passed := OnePass(ls, None, cs);
    MissingIsUnread(ls, cs, m);
    PassReads(ls, None, cs, s);
    PassSurvives(ls, None, cs);
    AddAllReads(passed, names, m, s);
    SurvivesTwice(ls, passed, Persist(ls, cs, m));
    MissingValue(ls, cs, m, s);
    NamesSection(cs, s);
  }

  lemma NamesSection(cs: seq<Change>, s: Slot)
    ensures ValueIn(cs, s).Some? ==> s.section in SectionNames(cs)
  {
    NotNamed(cs, s);
    if Names(cs, s) {
      var i :| 0 <= i < |cs| && cs[i].slot == s;
      assert cs[i].slot.section == s.section;
    }
  }

  lemma MissingValue(ls: File, cs: seq<Change>, m: seq<Change>, s: Slot)
    requires Distinct(cs) && IsMissing(ls, cs, m)
    ensures ValueIn(m, s) == if FirstLine(ls, None, s).Some? then None else ValueIn(cs, s)
  {
    hide FirstLine;
    NotNamed(cs, s);
    NotNamed(m, s);
    if Names(m, s) {
      var i :| 0 <= i < |m| && m[i].slot == s;
      assert m[i] in m;
      ValueInOf(m, m[i]);
      ValueInOf(cs, m[i]);
    } else if Names(cs, s) {
      var i :| 0 <= i < |cs| && cs[i].slot == s;
      assert cs[i] in cs;
      assert forall k :: 0 <= k < |m| ==> m[k].slot != s;
    }
  }

  /** Every changed key reads its new value, every other key keeps its line, and every line
      survives in order but for values. */
  lemma PersistLaw(ls: File, cs: seq<Change>, m: seq<Change>)
    requires Distinct(cs) && IsMissing(ls, cs, m)
    ensures var out := Persist(ls, cs, m);
            && (forall c :: c in cs ==> Read(out, c.slot) == Some(c.value) && Settled(out, c))
            && (forall s :: !Names(cs, s) ==> FirstLine(out, None, s) == FirstLine(ls, None, s))
            && Survives(ls, out)
  {
    hide FirstLine, Survives, Persist, IsMissing;
    var out := Persist(ls, cs, m);
    PersistReads(ls, cs, m, Slot("", ""));
    forall c | c in cs
      ensures Settled(out, c)
    {
      PersistReads(ls, cs, m, c.slot);
      ValueInOf(cs, c);
    }
    forall s | !Names(cs, s)
      ensures FirstLine(out, None, s) == FirstLine(ls, None, s)
    {
      PersistReads(ls, cs, m, s);
      NotNamed(cs, s);
    }
  }

  // ------------------------------------------------------------ persisting twice

  /** Nothing in these lines would be rewritten. */
  predicate Steady(ls: File, cur: Option<string>, cs: seq<Change>) {
    OnePass(ls, cur, cs) == ls
  }

  lemma {:induction false} PassOfSum(a: File, b: File, cur: Option<string>, cs: seq<Change>)
    ensures OnePass(a + b, cur, cs) == OnePass(a, cur, cs) + OnePass(b, SectionAfter(a, cur), cs)
  {
    if a == [] {
      assert a + b == b;
    } else {
      assert (a + b)[0] == a[0] && (a + b)[1..] == a[1..] + b;
      PassOfSum(a[1..], b, Below(a[0], cur), cs);
      SumAssociates([PassLine(a[0], cur, cs)], OnePass(a[1..], Below(a[0], cur), cs),
                    OnePass(b, SectionAfter(a, cur), cs));
    }
  }

  lemma SteadySum(a: File, b: File, cur: Option<string>, cs: seq<Change>)
    ensures Steady(a + b, cur, cs) <==> Steady(a, cur, cs) && Steady(b, SectionAfter(a, cur), cs)
  {
    PassOfSum(a, b, cur, cs);
    var x, y := OnePass(a, cur, cs), OnePass(b, SectionAfter(a, cur), cs);
    assert (x + y)[..|a|] == x && (a + b)[..|a|] == a && (x + y)[|a|..] == y && (a + b)[|a|..] == b;
  }

  lemma {:induction false} PassIsSteady(ls: File, cur: Option<string>, cs: seq<Change>)
    ensures Steady(OnePass(ls, cur, cs), cur, cs)
  {
    if ls != [] {
      PassIsSteady(ls[1..], Below(ls[0], cur), cs);
      TailOfCons(PassLine(ls[0], cur, cs), OnePass(ls[1..], Below(ls[0], cur), cs));
    }
  }

  /** The changes `m` say the same as `cs` does about their keys. */
  predicate Within(m: seq<Change>, cs: seq<Change>) {
    forall i :: 0 <= i < |m| ==> ValueIn(cs, m[i].slot) == Some(m[i].value)
  }

  lemma {:induction false} KeyBlockSteady(section: string, m: seq<Change>, cs: seq<Change>)
    requires Within(m, cs)
    ensures Steady(KeyBlock(section, m), Some(section), cs)
  {
    if m != [] {
      hide ValueIn;
      assert forall i :: 0 <= i < |m[1..]| ==> m[1..][i] == m[i + 1];
      KeyBlockSteady(section, m[1..], cs);
      var first := if m[0].slot.section == section then [NewLine(m[0].slot.key, m[0].value, "")] else [];
      SteadySum(first, KeyBlock(section, m[1..]), Some(section), cs);
      NoHeaderNoSection(first, Some(section));
      if first != [] {
        assert m[0].slot == Slot(section, m[0].slot.key);
        assert first[1..] == [] && OnePass(first[1..], Some(section), cs) == [];
      }
    }
  }

  lemma {:induction false} OthersSteady(ls: File, cur: Option<string>, cs: seq<Change>)
    requires forall i :: 0 <= i < |ls| ==> !ls[i].Key?
    ensures Steady(ls, cur, cs)
  {
    if ls != [] {
      OthersSteady(ls[1..], Below(ls[0], cur), cs);
    }
  }

  lemma BeforeHeaderSteady(ls: File, a: Option<string>, b: Option<string>, cs: seq<Change>)
    requires ls == [] || ls[0].Header?
    ensures Steady(ls, a, cs) <==> Steady(ls, b, cs)
  {
  }

  lemma InsertedSteady(ls: File, at: nat, block: File, cs: seq<Change>)
    requires at <= |ls| && Steady(ls, None, cs)
    requires Steady(block, SectionAfter(ls[..at], None), cs)
    requires at == |ls| || SectionAfter(block, SectionAfter(ls[..at], None)) == SectionAfter(ls[..at], None)
    ensures Steady(Inserted(ls, at, block), None, cs)
  {
    hide Steady;
    var a, b := ls[..at], ls[at..];
    TakeDrop(ls, at);
    SteadySum(a, b, None, cs);
    SumAssociates(a, block, b);
    SteadySum(a, block + b, None, cs);
    SteadySum(block, b, SectionAfter(a, None), cs);
    if at == |ls| {
      BeforeHeaderSteady(b, SectionAfter(a, None), SectionAfter(block, SectionAfter(a, None)), cs);
    }
  }

  lemma AddMissingSteady(ls: File, section: string, m: seq<Change>, cs: seq<Change>)
    requires Steady(ls, None, cs) && Within(m, cs)
    ensures Steady(AddMissing(ls, section, m), None, cs)
  {
    hide Steady, KeyBlock, Inserted, Blank;
    var block, header := KeyBlock(section, m), FirstHeader(ls, section, 0);
    KeyBlockSteady(section, m, cs);
    NoHeaderNoSection(block, Some(section));
    if block != [] && header.Some? {
      InsertAtIsInside(ls, header.value, section);
      InsertedSteady(ls, InsertAt(ls, header.value), block, cs);
    } else if block != [] {
      var b := Block(if ls != [] && !Blank(ls[|ls| - 1]) then [""] else [], section, block);
      var notes, head := Notes(b.notes), [Header(section, "")];
      var cur := SectionAfter(ls[..|ls|], None);
      OthersSteady(notes, cur, cs);
      OthersSteady(head, SectionAfter(notes, cur), cs);
      assert SectionAfter(head, SectionAfter(notes, cur)) == Some(section);
      SteadySum(head, block, SectionAfter(notes, cur), cs);
      SteadySum(notes, head + block, cur, cs);
      InsertedSteady(ls, |ls|, Lines(b), cs);
    }
  }

  lemma {:induction false} AddAllSteady(ls: File, names: seq<string>, m: seq<Change>, cs: seq<Change>)
    requires Steady(ls, None, cs) && Within(m, cs)
    ensures Steady(AddAll(ls, names, m), None, cs)
    decreases |names|
  {
    if names != [] {
      hide Steady, AddMissing, Within;
      AddMissingSteady(ls, names[0], m, cs);
      AddAllSteady(AddMissing(ls, names[0], m), names[1..], m, cs);
    }
  }

  lemma {:induction false} AddNothing(ls: File, names: seq<string>)
    ensures AddAll(ls, names, []) == ls
    decreases |names|
  {
    if names != [] {
      AddNothing(ls, names[1..]);
    }
  }

  lemma HasFirst(cs: seq<Change>)
    ensures cs != [] ==> exists c :: c in cs
  {
    if cs != [] {
      assert cs[0] in cs;
    }
  }

  /** Persisting the same changes again finds no key missing and changes nothing, whatever the
      order of the missing keys was: the file is not written a second time. */
  lemma PersistTwice(ls: File, cs: seq<Change>, m: seq<Change>, again: seq<Change>)
    requires Distinct(cs) && IsMissing(ls, cs, m) && IsMissing(Persist(ls, cs, m), cs, again)
    ensures again == [] && Persist(Persist(ls, cs, m), cs, again) == Persist(ls, cs, m)
  {
    hide FirstLine, Survives, AddAll, SectionNames;
    var out := Persist(ls, cs, m);
    PersistLaw(ls, cs, m);
    forall c
      ensures c !in again
    {
      assert c in cs ==> Settled(out, c);
    }
    HasFirst(again);
    forall i | 0 <= i < |m|
      ensures ValueIn(cs, m[i].slot) == Some(m[i].value)
    {
      assert m[i] in m;
      ValueInOf(cs, m[i]);
    }
    PassIsSteady(ls, None, cs);
    AddAllSteady(OnePass(ls, None, cs), SectionNames(cs), m, cs);
    AddNothing(out, SectionNames(cs));
  }

  // ------------------------------------------------------------ the two editors together

  lemma {:induction false} DirectIsFold(ls: File, cs: seq<Change>)
    requires forall c :: c in cs ==> FirstLine(ls, None, c.slot).Some?
    ensures Direct(ls, cs) == FoldSet(ls, cs) && Absent(ls, cs) == []
    decreases |cs|
  {
    hide FirstLine, HasSection, SetOne, InsertKey;
    if cs != [] {
      var c, rest := cs[0], cs[1..];
      assert c in cs && forall d :: d in rest ==> d in cs;
      ReadHasSection(ls, c.slot);
      SetOneReads(ls, None, c, c.slot);
      var next := SetOne(ls, None, c).0;
      forall d | d in rest
        ensures FirstLine(next, None, d.slot).Some?
      {
        SetOneReads(ls, None, c, d.slot);
      }
      DirectIsFold(next, rest);
      SameAbsent(ls, rest);
    }
  }

  lemma ReadHasSection(ls: File, s: Slot)
    requires FirstLine(ls, None, s).Some?
    ensures HasSection(ls, s.section)
  {
    if !HasSection(ls, s.section) {
      NoSectionNoKey(ls, None, s);
    }
  }

  lemma {:induction false} SameAbsent(ls: File, cs: seq<Change>)
    requires forall c :: c in cs ==> FirstLine(ls, None, c.slot).Some?
    ensures Absent(ls, cs) == []
  {
    if cs != [] {
      hide FirstLine, HasSection;
      assert cs[0] in cs && forall c :: c in cs[1..] ==> c in cs;
      ReadHasSection(ls, cs[0].slot);
      SameAbsent(ls, cs[1..]);
    }
  }

  /** On a file that gives each changed key, and none twice, the two editors write the same
      file, whatever order each takes the changes in. */
  lemma EditorsAgree(ls: File, cs: seq<Change>, ds: seq<Change>, w: Wording)
    requires UniqueKeys(ls, None) && Distinct(cs) && Distinct(ds) && SameChanges(cs, ds)
    requires forall c :: c in cs ==> FirstLine(ls, None, c.slot).Some?
    ensures IsMissing(ls, cs, []) && Persist(ls, cs, []) == Apply(ls, ds, w)
  {
    hide OnePass, FoldSet, FirstLine, UniqueKeys;
    OnePassIsFoldInAnyOrder(ls, cs, ds);
    AddNothing(OnePass(ls, None, cs), SectionNames(cs));
    DirectIsFold(ls, ds);
    NothingAbsent(ls, []);
  }

  // ------------------------------------------------------------ the loops

  /** The pass, with the changes it met. */
  method RunPass(lines: File, cs: seq<Change>) returns (out: File)
    ensures out == OnePass(lines, None, cs)
  {
    hide ValueIn;
    out := [];
    var cur: Option<string>, i := None, 0;
    DropNothing(lines);
    assert [] + OnePass(lines, None, cs) == OnePass(lines, None, cs);
    while i < |lines|
      invariant 0 <= i <= |lines|
      invariant out + OnePass(lines[i..], cur, cs) == OnePass(lines, None, cs)
    {
      var line := lines[i];
      assert lines[i..] == [line] + lines[i + 1..];
      TailOfCons(line, lines[i + 1..]);
      SumAssociates(out, [PassLine(line, cur, cs)], OnePass(lines[i + 1..], Below(line, cur), cs));
      if line.Header? {
        cur := Some(line.name);
        out := out + [line];
      } else if line.Key? && cur.Some? && ValueIn(cs, Slot(cur.value, line.name)).Some? {
        out := out + [SetLine(line, ValueIn(cs, Slot(cur.value, line.name)).value)];
      } else {
        out := out + [line];
      }
      i := i + 1;
    }
    assert lines[i..] == [];
    SumNothing(out);
  }

  /** `_insert_at`. */
  method FindInsertAt(lines: File, header: nat) returns (at: nat)
    requires header < |lines|
    ensures at == InsertAt(lines, header)
  {
    var lastKey, i, stop := header, header + 1, false;
    while i < |lines| && !stop
      invariant header <= lastKey < i <= |lines|
      invariant LastKey(lines, header, header + 1) == if stop then lastKey else LastKey(lines, lastKey, i)
      decreases |lines| - i, !stop
    {
      if lines[i].Header? {
        stop := true;
      } else {
        if lines[i].Key? {
          lastKey := i;
        }
        i := i + 1;
      }
    }
    return lastKey + 1;
  }

  /** `persist_values`, the missing keys coming in the order `m`. */
  method PersistChanges(lines: File, cs: seq<Change>, m: seq<Change>) returns (out: File)
    requires Distinct(cs) && IsMissing(lines, cs, m)
    ensures out == Persist(lines, cs, m)
  {
    hide OnePass, AddMissing, SectionNames, IsMissing;
    out := RunPass(lines, cs);
    var names, k := SectionNames(cs), 0;
    DropNothing(names);
    while k < |names|
      invariant 0 <= k <= |names|
      invariant AddAll(out, names[k..], m) == Persist(lines, cs, m)
    {
      assert names[k..] == [names[k]] + names[k + 1..];
      TailOfCons(names[k], names[k + 1..]);
      out := AddSection(out, names[k], m);
      k := k + 1;
    }
  }

  method AddSection(lines: File, section: string, m: seq<Change>) returns (out: File)
    ensures out == AddMissing(lines, section, m)
  {
    hide KeyBlock, FirstHeader, InsertAt, Blank;
    var block := KeyBlock(section, m);
    if block == [] {
      return lines;
    }
    var header := FirstHeader(lines, section, 0);
    if header.Some? {
      var at := FindInsertAt(lines, header.value);
      return lines[..at] + block + lines[at..];
    }
    var blank := if lines != [] && !Blank(lines[|lines| - 1]) then [Other("")] else [];
    assert Notes(if lines != [] && !Blank(lines[|lines| - 1]) then [""] else []) == blank;
    out := lines + blank + [Header(section, "")] + block;
    assert lines[..|lines|] == lines && lines[|lines|..] == [];
    SumNothing(lines + (blank + ([Header(section, "")] + block)));
    SumAssociates(lines + blank, [Header(section, "")], block);
    SumAssociates(lines, blank, [Header(section, "")] + block);
  }
}
