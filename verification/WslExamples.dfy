/** Two files on which saving is not what its documentation says, with the table the
    shell ships. */
module WslExamples {
  import opened Wrappers
  import opened Text
  import opened WslConfig
  import opened WslLines
  import opened WslLaws
  import opened WslTheorems
  import opened WslEditor
  import opened WslFile
  import opened WslSteady
  import opened WslLetter
  import opened WslTable

  const MEMORY: string := "memory"
  const ADDRESS: string := "dnsTunnelingIpAddress"

  function Shipped(): Table {
    TableOf(OwnedRows())
  }

  lemma {:induction false} LongKeysComeLate(rows: seq<Row>, key: string, n: nat)
    requires n <= |rows| && forall i :: 0 <= i < n ==> |rows[i].key| != |key|
    ensures FirstRow(rows, key) >= n
  {
    if n > 0 {
      assert |Lower(rows[0].key)| == |rows[0].key| && |Lower(key)| == |key|;
      LongKeysComeLate(rows[1..], key, n - 1);
    } else {
      TableIsFirstRow(rows, key);
    }
  }

  // Both of WSL's sections are the table's, and memory's is wsl2.
  lemma ShippedSections()
    ensures ValidTable(Shipped())
    ensures Owned(Shipped(), MEMORY) && Documented(Shipped(), MEMORY) == WSL2
    ensures InOwned(Shipped(), WSL2) && InOwned(Shipped(), EXPERIMENTAL)
  {
    hide TableOf;
    OwnedTableIsValid();
    var rows := OwnedRows();
    assert rows[0] == Row(WSL2, MEMORY);
    TableIsFirstRow(rows, MEMORY);
    assert rows[25] == Row(EXPERIMENTAL, ADDRESS);
    forall i | 0 <= i < 25
      ensures |rows[i].key| != |ADDRESS|
    {
      KeysAreShorter(i);
    }
    LongKeysComeLate(rows, ADDRESS, 25);
    TableIsFirstRow(rows, ADDRESS);
    SectionsArePlain(WSL2);
    SectionsArePlain(EXPERIMENTAL);
    FirstRowFinds(rows, MEMORY, 0);
    FirstRowFinds(rows, ADDRESS, 25);
    InItsSection(MEMORY);
    InItsSection(ADDRESS);
  }

  lemma InItsSection(key: string)
    requires ValidTable(Shipped()) && Owned(Shipped(), key)
    ensures InOwned(Shipped(), Documented(Shipped(), key))
  {
    hide TableOf;
    assert Documented(Shipped(), key) in Shipped().home.Values;
  }

  lemma KeysAreShorter(i: nat)
    requires i < 25
    ensures |OwnedRows()[i].key| != |ADDRESS|
  {
  }

  lemma {:induction false} FirstRowFinds(rows: seq<Row>, key: string, i: nat)
    requires i < |rows| && rows[i].key == key
    ensures FirstRow(rows, key) <= i
  {
    if i > 0 {
      FirstRowFinds(rows[1..], key, i - 1);
    }
  }

  // ---- The files ------------------------------------------------------------------------

  // memory=4GB in its own section, and a copy in the other.
  function TwoCopies(): seq<string> {
    ["[wsl2]", Format(MEMORY, "4GB"), "[experimental]", Format(MEMORY, "2GB")]
  }

  function OneCopy(value: string): seq<string> {
    ["[wsl2]", Format(MEMORY, value)]
  }

  function TextOf(lines: seq<string>): string {
    Join(lines) + "\n"
  }

  lemma ReadsAsPair(section: string, value: string)
    requires section == WSL2 || section == EXPERIMENTAL
    ensures var line := Format(MEMORY, value);
            && NextSection(section, line) == section
            && EntryOf(Shipped(), section, line) == [Entry(section, MEMORY, Trim(value))]
  {
    hide Shipped, Trim;
    ShippedSections();
    OwnedIsPlain(Shipped(), MEMORY);
    ClassifyFormat(MEMORY, value);
  }

  lemma ReadsAsHeader(before: string, name: string)
    requires name == WSL2 || name == EXPERIMENTAL
    ensures NextSection(before, "[" + name + "]") == name && EntryOf(Shipped(), name, "[" + name + "]") == []
  {
    SectionsArePlain(name);
    ClassifySectionLine(name);
  }

  // Two lines, one after the other.
  lemma TwoLines(t: Table, section: string, a: string, b: string, plan: seq<Plan>)
    ensures var s := NextSection(section, a);
            && SectionAfter(section, [a, b]) == NextSection(s, b)
            && Entries(t, section, [a, b]) == EntryOf(t, s, a) + EntryOf(t, NextSection(s, b), b)
            && Rewrite(t, section, [a, b], plan) ==
               RewriteLine(t, s, a, plan) + RewriteLine(t, NextSection(s, b), b, plan)
  {
    hide NextSection, EntryOf, RewriteLine;
    assert [a, b] == [a] + [b];
    SectionAfterConcat(section, [a], [b]);
    EntriesConcat(t, section, [a], [b]);
    RewriteConcat(t, section, [a], [b], plan);
    SingleLine(t, section, a);
    SingleLine(t, NextSection(section, a), b);
    RewriteOfOne(t, section, a, plan);
    RewriteOfOne(t, NextSection(section, a), b, plan);
  }

  lemma RewriteOfOne(t: Table, section: string, line: string, plan: seq<Plan>)
    ensures Rewrite(t, section, [line], plan) == RewriteLine(t, NextSection(section, line), line, plan)
  {
    hide NextSection, RewriteLine;
    assert [line][1..] == [];
    var s := NextSection(section, line);
    assert RewriteLine(t, s, line, plan) + [] == RewriteLine(t, s, line, plan);
  }

  lemma EntriesOfOneCopy(value: string)
    ensures Entries(Shipped(), "", OneCopy(value)) == [Entry(WSL2, MEMORY, Trim(value))]
    ensures SectionAfter("", OneCopy(value)) == WSL2
  {
    hide EntryOf, NextSection, Format, Shipped, Trim, Entries, SectionAfter;
    ReadsAsHeader("", WSL2);
    ReadsAsPair(WSL2, value);
    assert "[" + WSL2 + "]" == "[wsl2]";
    TwoLines(Shipped(), "", "[wsl2]", Format(MEMORY, value), []);
  }

  lemma EntriesOfTwoCopies()
    ensures Entries(Shipped(), "", TwoCopies()) ==
            [Entry(WSL2, MEMORY, Trim("4GB"))] + [Entry(EXPERIMENTAL, MEMORY, Trim("2GB"))]
  {
    hide EntryOf, NextSection, Format, Shipped, Trim, Entries, SectionAfter;
    EntriesOfOneCopy("4GB");
    ReadsAsHeader(WSL2, EXPERIMENTAL);
    ReadsAsPair(EXPERIMENTAL, "2GB");
    assert "[" + EXPERIMENTAL + "]" == "[experimental]";
    TwoLines(Shipped(), WSL2, "[experimental]", Format(MEMORY, "2GB"), []);
    assert TwoCopies() == OneCopy("4GB") + ["[experimental]", Format(MEMORY, "2GB")];
    EntriesConcat(Shipped(), "", OneCopy("4GB"), ["[experimental]", Format(MEMORY, "2GB")]);
  }

  lemma PlainTextReads(lines: seq<string>)
    requires OneLiners(lines) && lines != []
    ensures EndsLine(TextOf(lines))
    ensures Entries(Shipped(), "", Lines(TextOf(lines))) == Entries(Shipped(), "", lines)
  {
    hide Shipped, Lines, Join;
    EntriesOfText(Shipped(), "", lines, "\n");
    assert TextOf(lines)[|TextOf(lines)| - 1] == '\n';
  }

  const REMOVAL: seq<Edit> := [Edit(WSL2, MEMORY, None)]

  /** Removing memory from a file that also has it under experimental takes two
      saves: the second one changes the file again. */
  lemma ARemovalMovesOn(order: seq<EntryKey>, again: seq<EntryKey>)
    requires forall c :: c in order <==> c in Read(Shipped(), Lines(TextOf(TwoCopies())))
    requires forall c :: c in again <==>
               c in Read(Shipped(), Lines(Edited(Shipped(), TextOf(TwoCopies()), Planned(Shipped(), order, REMOVAL))))
    ensures var once := Edited(Shipped(), TextOf(TwoCopies()), Planned(Shipped(), order, REMOVAL));
            Edited(Shipped(), once, Planned(Shipped(), again, REMOVAL)) != once
  {
    hide Shipped, Lines, Join, Apply, Read, Entries, Trim, Target, Format, Bare, Kept;
    var t, raw := Shipped(), TextOf(TwoCopies());
    ShippedSections();
    TwoCopiesAreOneLiners();
    PlainTextReads(TwoCopies());
    EntriesOfTwoCopies();
    var es := Entries(t, "", Lines(raw));
    var plan := Planned(t, order, REMOVAL);
    TargetIsPlace(t, Lines(raw), order, MEMORY);
    MemoryIsPresent(es);
    SectionsDiffer();
    assert es[1] in es && !Same(es[1].section, plan[0].home);
    assert !RemovesAll(es, plan);
    SavingTwiceExactly(t, raw, REMOVAL, order, again);
  }

  lemma MemoryIsPresent(es: seq<Entry>)
    requires es != [] && es[0].section == WSL2 && es[0].key == MEMORY
    ensures Place(Shipped(), es, MEMORY) == WSL2
  {
    hide TableOf;
    ShippedSections();
    SectionsArePlain(WSL2);
    assert Present(es, WSL2, MEMORY);
  }

  lemma SectionsDiffer()
    ensures Lower(WSL2) == WSL2 != EXPERIMENTAL == Lower(EXPERIMENTAL)
  {
    SectionsArePlain(WSL2);
    SectionsArePlain(EXPERIMENTAL);
    assert WSL2[0] != EXPERIMENTAL[0];
  }

  lemma TwoCopiesAreOneLiners()
    ensures OneLiners(TwoCopies()) && OneLiners(OneCopy("4GB"))
  {
    hide Join;
    assert Format(MEMORY, "4GB") == "memory=4GB" && Format(MEMORY, "2GB") == "memory=2GB";
    assert OneLine("[wsl2]") && OneLine("[experimental]") && OneLine("memory=4GB") && OneLine("memory=2GB");
  }

  const EMPTYING: seq<Edit> := [Edit(WSL2, MEMORY, Some(""))]

  /** An empty value does not remove a setting, as its documentation has it: the
      line stays, with nothing after the sign. */
  lemma AnEmptyValueStays(order: seq<EntryKey>)
    requires forall c :: c in order <==> c in Read(Shipped(), Lines(TextOf(OneCopy("4GB"))))
    ensures Edited(Shipped(), TextOf(OneCopy("4GB")), Planned(Shipped(), order, EMPTYING)) == TextOf(OneCopy(""))
  {
    hide Shipped, Lines, Join, Apply, Read, Entries, Trim, Target, Format;
    var t, lines := Shipped(), OneCopy("4GB");
    var raw, plan := TextOf(lines), Planned(Shipped(), order, EMPTYING);
    ShippedSections();
    TwoCopiesAreOneLiners();
    PlainTextReads(lines);
    EntriesOfOneCopy("4GB");
    TargetIsPlace(t, Lines(raw), order, MEMORY);
    PlannedIsTargeted(t, Lines(raw), order, EMPTYING);
    MemoryIsPresent(Entries(t, "", lines));
    PlainLinesAreTheirs("4GB");
    assert plan == [Plan(EMPTYING[0], plan[0].home)];
    EmptiedLines(plan[0].home);
  }

  lemma PlainLinesAreTheirs(value: string)
    requires value == "4GB"
    ensures Lines(TextOf(OneCopy(value))) == OneCopy(value)
  {
    TwoCopiesAreOneLiners();
    LinesOfJoined(OneCopy(value));
    hide Lines, Join;
    assert Format(MEMORY, value) == "memory=4GB";
    assert StripCr("[wsl2]") == "[wsl2]" && StripCr("memory=4GB") == "memory=4GB";
    var lines := OneCopy(value);
    assert lines[1..] == ["memory=4GB"] && lines[1..][1..] == [];
    assert Stripped(lines[1..]) == ["memory=4GB"] + Stripped([]);
  }

  lemma EmptiedLines(home: string)
    requires Lower(home) == WSL2
    requires Targeted(Shipped(), Entries(Shipped(), "", OneCopy("4GB")), [Plan(EMPTYING[0], home)])
    ensures Apply(Shipped(), OneCopy("4GB"), [Plan(EMPTYING[0], home)]) == OneCopy("")
  {
    hide Shipped, Lines, Join, Entries, Trim, Format, Present, Rewrite, Marks, Missing;
    var t, lines, plan := Shipped(), OneCopy("4GB"), [Plan(EMPTYING[0], home)];
    ShippedSections();
    EntriesOfOneCopy("4GB");
    var ends := Ends(t, lines, plan);
    assert ends != [] ==> ends[0] in ends;
    EndsAreMissing(t, lines, plan);
    PresentInOneCopy(home);
    assert plan[0] !in ends;
    RewriteOfOneCopy(home);
  }

  lemma RewriteOfOneCopy(home: string)
    requires Lower(home) == WSL2
    ensures Rewrite(Shipped(), "", OneCopy("4GB"), [Plan(EMPTYING[0], home)]) == OneCopy("")
  {
    hide EntryOf, NextSection, Format, Shipped, Trim, Entries, SectionAfter, RewriteLine, Rewrite;
    EmptiedPair(home);
    EmptiedHeader(home);
    ReadsAsHeader("", WSL2);
    ReadsAsPair(WSL2, "4GB");
    assert "[" + WSL2 + "]" == "[wsl2]";
    TwoLines(Shipped(), "", "[wsl2]", Format(MEMORY, "4GB"), [Plan(EMPTYING[0], home)]);
  }

  lemma PresentInOneCopy(home: string)
    requires Lower(home) == WSL2
    ensures Present(Entries(Shipped(), "", OneCopy("4GB")), home, MEMORY)
  {
    hide Shipped, Entries, Trim;
    SectionsArePlain(WSL2);
    EntriesOfOneCopy("4GB");
    assert [Entry(WSL2, MEMORY, Trim("4GB"))][0].key == MEMORY;
  }

  lemma EmptiedPair(home: string)
    requires Lower(home) == WSL2
    ensures RewriteLine(Shipped(), WSL2, Format(MEMORY, "4GB"), [Plan(EMPTYING[0], home)]) == [Format(MEMORY, "")]
  {
    hide Shipped, Trim;
    ShippedSections();
    SectionsArePlain(WSL2);
    OwnedIsPlain(Shipped(), MEMORY);
    ClassifyFormat(MEMORY, "4GB");
    hide Format, Classify;
    var plan := [Plan(EMPTYING[0], home)];
    assert Hits(plan[0], WSL2, MEMORY);
    assert Find(plan, WSL2, MEMORY) == Some(0);
  }

  lemma EmptiedHeader(home: string)
    ensures RewriteLine(Shipped(), WSL2, "[wsl2]", [Plan(EMPTYING[0], home)]) == ["[wsl2]"]
  {
    SectionsArePlain(WSL2);
    ClassifySectionLine(WSL2);
    hide Classify;
    assert "[" + WSL2 + "]" == "[wsl2]";
  }
}
