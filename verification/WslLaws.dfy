/** The exact effect of an edit on what the reader sees: every entry of the
    edited file, computed from the original file and the edits. */
module WslLaws {
  import opened Wrappers
  import opened Text
  import opened WslConfig
  import opened WslLines

  // ---- Entries as a lookup ------------------------------------------------------

  // The value the reader reports for one spelling: the last one assigned.
  function Get(es: seq<Entry>, section: string, key: string): Option<string> {
    if es == [] then None
    else
      var later := Get(es[1..], section, key);
      if later.Some? then later
      else if es[0].section == section && es[0].key == key then Some(es[0].value)
      else None
  }

  // Some spelling of the key is assigned in some spelling of the section.
  ghost predicate Present(es: seq<Entry>, section: string, key: string) {
    exists j :: 0 <= j < |es| && Same(es[j].section, section) && Same(es[j].key, key)
  }

  // Some spelling of the key is assigned under exactly this section name.
  ghost predicate Holds(es: seq<Entry>, section: string, key: string) {
    exists j :: 0 <= j < |es| && es[j].section == section && Same(es[j].key, key)
  }

  lemma {:induction false} GetConcat(a: seq<Entry>, b: seq<Entry>, section: string, key: string)
    ensures Get(a + b, section, key) ==
            if Get(b, section, key).Some? then Get(b, section, key) else Get(a, section, key)
  {
    if a == [] {
      assert a + b == b;
    } else {
      assert (a + b)[1..] == a[1..] + b;
      GetConcat(a[1..], b, section, key);
    }
  }

  lemma {:induction false} GetFound(es: seq<Entry>, section: string, key: string)
    ensures Get(es, section, key).Some? <==>
            exists j :: 0 <= j < |es| && es[j].section == section && es[j].key == key
  {
    if es != [] {
      GetFound(es[1..], section, key);
      assert forall j :: 1 <= j < |es| ==> es[j] == es[1..][j - 1];
    }
  }

  lemma {:induction false} MapIsGet(es: seq<Entry>, section: string, key: string)
    ensures (section, key) in AsMap(es) <==> Get(es, section, key).Some?
    ensures (section, key) in AsMap(es) ==> Get(es, section, key) == Some(AsMap(es)[(section, key)])
  {
    if es != [] {
      var n := |es| - 1;
      MapIsGet(es[..n], section, key);
      GetConcat(es[..n], [es[n]], section, key);
      assert es == es[..n] + [es[n]];
    }
  }

  // ---- Edits that can be reasoned about one by one --------------------------------

  ghost predicate DistinctKeys(plan: seq<Plan>) {
    forall i, j :: 0 <= i < j < |plan| ==> !Same(plan[i].edit.key, plan[j].edit.key)
  }

  ghost predicate OwnedKeys(t: Table, plan: seq<Plan>) {
    forall i :: 0 <= i < |plan| ==> Owned(t, plan[i].edit.key)
  }

  lemma OnlyHit(plan: seq<Plan>, i: nat, section: string, key: string)
    requires DistinctKeys(plan) && i < |plan| && Hits(plan[i], section, key)
    ensures Find(plan, section, key) == Some(i)
  {
    var f := Find(plan, section, key).value;
    assert Same(plan[f].edit.key, plan[i].edit.key);
  }

  lemma SameKeySameEdit(plan: seq<Plan>, i: nat, j: nat)
    requires DistinctKeys(plan) && i < |plan| && j < |plan| && Same(plan[i].edit.key, plan[j].edit.key)
    ensures i == j
  {
    assert Same(plan[j].edit.key, plan[i].edit.key);
  }

  lemma OwnedIsPlain(t: Table, key: string)
    requires ValidTable(t) && Owned(t, key)
    ensures Plain(key)
  {
    PlainFolds(key);
  }

  // ---- First pass -------------------------------------------------------------------

  function EditedEntry(e: Entry, plan: seq<Plan>): seq<Entry> {
    match Find(plan, e.section, e.key)
    case None => [e]
    case Some(i) =>
      match plan[i].edit.value
      case Some(v) => [Entry(e.section, plan[i].edit.key, Trim(v))]
      case None => []
  }

  function EditedEntries(es: seq<Entry>, plan: seq<Plan>): seq<Entry> {
    if es == [] then [] else EditedEntry(es[0], plan) + EditedEntries(es[1..], plan)
  }

  lemma RewrittenLine(t: Table, section: string, line: string, plan: seq<Plan>)
    requires ValidTable(t) && OwnedKeys(t, plan) && NextSection(section, line) == section
    ensures var out := RewriteLine(t, section, line, plan);
            && Entries(t, section, out) ==
               (var was := EntryOf(t, section, line); if was == [] then [] else EditedEntry(was[0], plan))
            && SectionAfter(section, out) == section
  {
    var hit := EditAt(t, section, line, plan);
    if hit.Some? {
      var e := plan[hit.value].edit;
      OwnedIsPlain(t, e.key);
      if e.value.Some? {
        ClassifyFormat(e.key, e.value.value);
        assert [Format(e.key, e.value.value)][1..] == [];
      }
    } else {
      assert [line][1..] == [];
    }
  }

  lemma HeaderNamesItself(section: string, line: string)
    ensures NextSection(NextSection(section, line), line) == NextSection(section, line)
  {
  }

  lemma {:induction false} EditedConcat(a: seq<Entry>, b: seq<Entry>, plan: seq<Plan>)
    ensures EditedEntries(a + b, plan) == EditedEntries(a, plan) + EditedEntries(b, plan)
  {
    if a == [] {
      assert a + b == b;
    } else {
      assert (a + b)[1..] == a[1..] + b;
      EditedConcat(a[1..], b, plan);
    }
  }

  lemma {:induction false} EntriesOfRewrite(t: Table, section: string, lines: seq<string>, plan: seq<Plan>)
    requires ValidTable(t) && OwnedKeys(t, plan)
    ensures Entries(t, section, Rewrite(t, section, lines, plan)) ==
            EditedEntries(Entries(t, section, lines), plan)
    decreases lines
  {
    if lines != [] {
      var s := NextSection(section, lines[0]);
      var out := RewriteLine(t, s, lines[0], plan);
      var rest := Rewrite(t, s, lines[1..], plan);
      HeaderNamesItself(section, lines[0]);
      RewrittenLine(t, s, lines[0], plan);
      EntriesOfRewrite(t, s, lines[1..], plan);
      EntriesConcat(t, s, out, rest);
      var was := EntryOf(t, s, lines[0]);
      EditedConcat(was, Entries(t, s, lines[1..]), plan);
      if was != [] {
        assert was == [was[0]];
        assert EditedEntries(was, plan) == EditedEntry(was[0], plan) + EditedEntries([], plan);
      }
      EntriesFromSection(t, section, s, out + rest, lines[0], plan);
    }
  }

  // A header stays the first rewritten line, so it does not matter whether the
  // rewritten lines are read from before or after it.
  lemma EntriesFromSection(t: Table, section: string, s: string, lines: seq<string>, first: string, plan: seq<Plan>)
    requires s == NextSection(section, first)
    requires s == section || (lines != [] && lines[0] == first)
    ensures Entries(t, section, lines) == Entries(t, s, lines)
  {
  }

  lemma {:induction false} GetOfEdited(es: seq<Entry>, plan: seq<Plan>, section: string, key: string)
    requires DistinctKeys(plan)
    ensures Get(EditedEntries(es, plan), section, key) ==
            match Find(plan, section, key)
            case None => Get(es, section, key)
            case Some(i) =>
              var e := plan[i].edit;
              if e.value.Some? && key == e.key && Holds(es, section, key) then Some(Trim(e.value.value)) else None
  {
    if es != [] {
      var rest := EditedEntries(es[1..], plan);
      GetOfEdited(es[1..], plan, section, key);
      GetConcat(EditedEntry(es[0], plan), rest, section, key);
      assert Holds(es, section, key) <==>
             (es[0].section == section && Same(es[0].key, key)) || Holds(es[1..], section, key) by {
        assert forall j :: 1 <= j < |es| ==> es[j] == es[1..][j - 1];
      }
      var hit := Find(plan, es[0].section, es[0].key);
      if hit.Some? && es[0].section == section && Same(es[0].key, key) {
        OnlyHit(plan, hit.value, section, key);
      } else if hit.Some? && plan[hit.value].edit.key == key && es[0].section == section {
        assert Same(es[0].key, key);
      }
      assert [es[0]][1..] == [];
    }
  }

  lemma {:induction false} MarksArePresence(t: Table, section: string, lines: seq<string>, plan: seq<Plan>, i: nat)
    requires ValidTable(t) && OwnedKeys(t, plan) && DistinctKeys(plan) && i < |plan|
    ensures (plan[i].edit.section, plan[i].edit.key) in Marks(t, section, lines, plan) <==>
            Present(Entries(t, section, lines), plan[i].home, plan[i].edit.key)
    decreases lines
  {
    if lines != [] {
      var s := NextSection(section, lines[0]);
      var first, rest := EntryOf(t, s, lines[0]), Entries(t, s, lines[1..]);
      MarksArePresence(t, s, lines[1..], plan, i);
      PresentConcat(first, rest, plan[i].home, plan[i].edit.key);
      var hit := EditAt(t, s, lines[0], plan);
      if first != [] && Hits(plan[i], first[0].section, first[0].key) {
        OnlyHit(plan, i, first[0].section, first[0].key);
      }
    }
  }

  lemma PresentConcat(a: seq<Entry>, b: seq<Entry>, section: string, key: string)
    ensures Present(a + b, section, key) <==> Present(a, section, key) || Present(b, section, key)
  {
    if Present(a, section, key) {
      var j :| 0 <= j < |a| && Same(a[j].section, section) && Same(a[j].key, key);
      assert (a + b)[j] == a[j];
    }
    if Present(b, section, key) {
      var j :| 0 <= j < |b| && Same(b[j].section, section) && Same(b[j].key, key);
      assert (a + b)[|a| + j] == b[j];
    }
  }

  // ---- Section headers ------------------------------------------------------------

  function HeaderNames(lines: seq<string>): seq<string> {
    if lines == [] then []
    else
      var c := Classify(lines[0]);
      (if c.Header? then [c.name] else []) + HeaderNames(lines[1..])
  }

  function FirstName(names: seq<string>, home: string): string {
    if names == [] then home
    else if Same(names[0], home) then names[0]
    else FirstName(names[1..], home)
  }

  // The section name under which an appended key reads back: the first header
  // the file has for its home, else the home itself, as a new section.
  function NewHome(lines: seq<string>, home: string): string {
    FirstName(HeaderNames(lines), home)
  }

  lemma {:induction false} FirstNameIsSame(names: seq<string>, home: string)
    ensures Same(FirstName(names, home), home)
  {
    if names != [] {
      FirstNameIsSame(names[1..], home);
    }
  }

  lemma NamesFirst(lines: seq<string>)
    requires lines != []
    ensures HeaderNames(lines) ==
            (if Classify(lines[0]).Header? then [Classify(lines[0]).name] else []) + HeaderNames(lines[1..])
  {
    hide Classify;
  }

  lemma {:induction false} HeaderNamesConcat(a: seq<string>, b: seq<string>)
    ensures HeaderNames(a + b) == HeaderNames(a) + HeaderNames(b)
  {
    hide Classify;
    if a == [] {
      assert a + b == b;
    } else {
      assert (a + b)[0] == a[0] && (a + b)[1..] == a[1..] + b;
      HeaderNamesConcat(a[1..], b);
      NamesFirst(a + b);
      NamesFirst(a);
      hide HeaderNames;
    }
  }

  lemma {:induction false} FirstHeaderIsNewHome(lines: seq<string>, home: string)
    ensures match FirstHeader(lines, home)
            case None => NewHome(lines, home) == home
            case Some(i) => Classify(lines[i]) == Header(NewHome(lines, home))
  {
    if lines != [] {
      var c, rest := Classify(lines[0]), HeaderNames(lines[1..]);
      assert HeaderNames(lines) == (if c.Header? then [c.name] + rest else rest);
      assert c.Header? ==> ([c.name] + rest)[1..] == rest;
      if !HeaderOf(lines[0], home) {
        FirstHeaderIsNewHome(lines[1..], home);
      }
    }
  }

  lemma {:induction false} FirstNameSkips(names: seq<string>, extra: string, home: string)
    requires !Same(extra, home)
    ensures FirstName(names + [extra], home) == FirstName(names, home)
  {
    if names == [] {
      assert (names + [extra])[1..] == [];
    } else {
      assert (names + [extra])[1..] == names[1..] + [extra];
      FirstNameSkips(names[1..], extra, home);
    }
  }

  lemma {:induction false} HeaderNamesOfRewrite(t: Table, section: string, lines: seq<string>, plan: seq<Plan>)
    requires ValidTable(t) && OwnedKeys(t, plan)
    ensures HeaderNames(Rewrite(t, section, lines, plan)) == HeaderNames(lines)
    decreases lines
  {
    if lines != [] {
      var s := NextSection(section, lines[0]);
      var out := RewriteLine(t, s, lines[0], plan);
      HeaderNamesOfRewrite(t, s, lines[1..], plan);
      HeaderNamesConcat(out, Rewrite(t, s, lines[1..], plan));
      var hit := EditAt(t, s, lines[0], plan);
      if hit.Some? && plan[hit.value].edit.value.Some? {
        OwnedIsPlain(t, plan[hit.value].edit.key);
        ClassifyFormat(plan[hit.value].edit.key, plan[hit.value].edit.value.value);
      }
      if out != [] {
        assert out == [out[0]] && out[1..] == [];
      }
    }
  }

  // ---- Appended groups --------------------------------------------------------------

  ghost predicate Settable(t: Table, ends: seq<Plan>) {
    && OwnedKeys(t, ends)
    && DistinctKeys(ends)
    && forall i :: 0 <= i < |ends| ==>
        && ends[i].edit.value.Some?
        && Plain(ends[i].home) && Lower(ends[i].home) == ends[i].home && InOwned(t, ends[i].home)
  }

  function GroupEntries(ends: seq<Plan>, home: string, name: string): seq<Entry>
    requires forall i :: 0 <= i < |ends| ==> ends[i].edit.value.Some?
  {
    if ends == [] then []
    else
      (if ends[0].home == home then [Entry(name, ends[0].edit.key, Trim(ends[0].edit.value.value))] else [])
      + GroupEntries(ends[1..], home, name)
  }

  lemma {:induction false} EntriesOfGroup(t: Table, ends: seq<Plan>, home: string, name: string)
    requires ValidTable(t) && InOwned(t, name) && OwnedKeys(t, ends)
    requires forall i :: 0 <= i < |ends| ==> ends[i].edit.value.Some?
    ensures Entries(t, name, Group(ends, home)) == GroupEntries(ends, home, name)
    ensures SectionAfter(name, Group(ends, home)) == name
    ensures HeaderNames(Group(ends, home)) == []
  {
    if ends != [] {
      EntriesOfGroup(t, ends[1..], home, name);
      if ends[0].home == home {
        var e := ends[0].edit;
        OwnedIsPlain(t, e.key);
        ClassifyFormat(e.key, e.value.value);
        var line := Format(e.key, e.value.value);
        assert Group(ends, home) == [line] + Group(ends[1..], home);
        assert ([line] + Group(ends[1..], home))[1..] == Group(ends[1..], home);
      } else {
        assert Group(ends, home) == Group(ends[1..], home);
      }
    }
  }

  lemma {:induction false} GetOfGroup(ends: seq<Plan>, home: string, name: string, section: string, key: string)
    requires DistinctKeys(ends)
    requires forall i :: 0 <= i < |ends| ==> ends[i].edit.value.Some?
    ensures forall j :: 0 <= j < |ends| && ends[j].home == home && ends[j].edit.key == key && section == name ==>
              Get(GroupEntries(ends, home, name), section, key) == Some(Trim(ends[j].edit.value.value))
    ensures (forall j :: 0 <= j < |ends| && ends[j].edit.key == key ==> ends[j].home != home) || section != name ==>
              Get(GroupEntries(ends, home, name), section, key) == None
  {
    if ends != [] {
      var rest := GroupEntries(ends[1..], home, name);
      GetOfGroup(ends[1..], home, name, section, key);
      assert forall j :: 1 <= j < |ends| ==> ends[j] == ends[1..][j - 1];
      if ends[0].home == home {
        var first := Entry(name, ends[0].edit.key, Trim(ends[0].edit.value.value));
        assert ([first] + rest)[1..] == rest;
      } else {
        assert [] + rest == rest;
      }
    }
  }

  lemma {:induction false} NoHeaderKeepsSection(section: string, lines: seq<string>)
    requires forall j :: 0 <= j < |lines| ==> !Classify(lines[j]).Header?
    ensures SectionAfter(section, lines) == section
  {
    if lines != [] {
      assert forall j :: 0 <= j < |lines[1..]| ==> lines[1..][j] == lines[j + 1];
      NoHeaderKeepsSection(section, lines[1..]);
    }
  }

  // Lines without headers, inserted where the section is `name`, add their
  // entries and nothing else.
  lemma EntriesOfInsert(t: Table, head: seq<string>, group: seq<string>, tail: seq<string>, name: string)
    requires SectionAfter("", head) == name == SectionAfter(name, group)
    ensures Entries(t, "", head + tail) == Entries(t, "", head) + Entries(t, name, tail)
    ensures Entries(t, "", head + group + tail) ==
            Entries(t, "", head) + Entries(t, name, group) + Entries(t, name, tail)
    ensures HeaderNames(group) == [] ==> HeaderNames(head + group + tail) == HeaderNames(head + tail)
  {
    EntriesConcat(t, "", head, tail);
    EntriesConcat(t, "", head + group, tail);
    EntriesConcat(t, "", head, group);
    SectionAfterConcat("", head, group);
    HeaderNamesConcat(head, tail);
    HeaderNamesConcat(head + group, tail);
    HeaderNamesConcat(head, group);
  }

  // The insertion point of an existing section is inside its first block.
  lemma InsertionPoint(lines: seq<string>, home: string) returns (at: nat)
    requires FirstHeader(lines, home).Some?
    ensures at <= |lines| && SectionAfter("", lines[..at]) == NewHome(lines, home)
    ensures forall group :: AppendGroup(lines, home, group) == lines[..at] + group + lines[at..]
  {
    hide Classify;
    FirstHeaderIsNewHome(lines, home);
    var start := FirstHeader(lines, home).value;
    at := BlockEnd(lines, start + 1, start + 1);
    var top, block := lines[..start + 1], lines[start + 1..at];
    assert top == lines[..start] + [lines[start]];
    assert lines[..at] == top + block;
    SectionAfterConcat("", lines[..start], [lines[start]]);
    assert [lines[start]][1..] == [];
    SectionAfterConcat("", top, block);
    NoHeaderKeepsSection(NewHome(lines, home), block);
  }

  lemma OpeningIsHeader(t: Table, section: string, lines: seq<string>, home: string)
    requires Plain(home)
    ensures Entries(t, section, Opening(lines, home)) == []
    ensures SectionAfter(section, Opening(lines, home)) == home
    ensures HeaderNames(Opening(lines, home)) == [home]
  {
    ClassifySectionLine(home);
    var line, empty: string := "[" + home + "]", "";
    assert Classify(empty) == Other;
    SingleLine(t, section, line);
    SingleLine(t, section, empty);
    assert [line][1..] == [] && [empty][1..] == [];
    assert HeaderNames([line]) == [home] + HeaderNames([]) == [home];
    assert HeaderNames([empty]) == [] + HeaderNames([]) == [];
    EntriesConcat(t, section, [empty], [line]);
    SectionAfterConcat(section, [empty], [line]);
    HeaderNamesConcat([empty], [line]);
    assert Opening(lines, home) == [line] || Opening(lines, home) == [empty] + [line];
  }

  lemma EntriesOfTail(t: Table, lines: seq<string>, opening: seq<string>, group: seq<string>, home: string)
    requires Entries(t, SectionAfter("", lines), opening) == []
    requires SectionAfter(SectionAfter("", lines), opening) == home
    ensures Entries(t, "", lines + opening + group) == Entries(t, "", lines) + Entries(t, home, group)
    ensures HeaderNames(lines + opening + group) == HeaderNames(lines) + HeaderNames(opening) + HeaderNames(group)
  {
    EntriesConcat(t, "", lines + opening, group);
    EntriesConcat(t, "", lines, opening);
    SectionAfterConcat("", lines, opening);
    HeaderNamesConcat(lines + opening, group);
    HeaderNamesConcat(lines, opening);
  }

  lemma EntriesOfNewSection(t: Table, lines: seq<string>, home: string, group: seq<string>)
    requires Plain(home) && FirstHeader(lines, home).None? && HeaderNames(group) == []
    ensures Entries(t, "", AppendGroup(lines, home, group)) == Entries(t, "", lines) + Entries(t, home, group)
    ensures HeaderNames(AppendGroup(lines, home, group)) == HeaderNames(lines) + [home]
  {
    OpeningIsHeader(t, SectionAfter("", lines), lines, home);
    EntriesOfTail(t, lines, Opening(lines, home), group, home);
  }

  // A group lands between two parts of the file's entries, under one name.
  lemma EntriesOfAppendGroup(t: Table, lines: seq<string>, ends: seq<Plan>, home: string)
    returns (before: seq<Entry>, after: seq<Entry>)
    requires ValidTable(t) && OwnedKeys(t, ends)
    requires forall i :: 0 <= i < |ends| ==> ends[i].edit.value.Some?
    requires Plain(home) && Lower(home) == home && InOwned(t, home)
    ensures Entries(t, "", lines) == before + after
    ensures Entries(t, "", AppendGroup(lines, home, Group(ends, home))) ==
            before + GroupEntries(ends, home, NewHome(lines, home)) + after
    ensures HeaderNames(AppendGroup(lines, home, Group(ends, home))) ==
            HeaderNames(lines) + if FirstHeader(lines, home).None? then [home] else []
  {
    var name, group := NewHome(lines, home), Group(ends, home);
    FirstHeaderIsNewHome(lines, home);
    FirstNameIsSame(HeaderNames(lines), home);
    EntriesOfGroup(t, ends, home, name);
    match FirstHeader(lines, home)
    case Some(start) =>
      var at := InsertionPoint(lines, home);
      var head, tail := lines[..at], lines[at..];
      assert lines == head + tail;
      EntriesOfInsert(t, head, group, tail, name);
      before, after := Entries(t, "", head), Entries(t, name, tail);
    case None =>
      before, after := Entries(t, "", lines), [];
      EntriesOfNewSection(t, lines, home, group);
  }

  // Appending one group sets its keys and changes no other reading.
  lemma GetOfAppendGroup(t: Table, lines: seq<string>, ends: seq<Plan>, home: string, section: string, key: string)
    requires ValidTable(t) && OwnedKeys(t, ends) && DistinctKeys(ends)
    requires forall i :: 0 <= i < |ends| ==> ends[i].edit.value.Some?
    requires Plain(home) && Lower(home) == home && InOwned(t, home)
    requires Get(Entries(t, "", lines), section, key).None?
             || section != NewHome(lines, home)
             || forall j :: 0 <= j < |ends| && ends[j].edit.key == key ==> ends[j].home != home
    ensures forall j :: 0 <= j < |ends| && ends[j].home == home && ends[j].edit.key == key && section == NewHome(lines, home) ==>
              Get(Entries(t, "", AppendGroup(lines, home, Group(ends, home))), section, key)
              == Some(Trim(ends[j].edit.value.value))
    ensures (forall j :: 0 <= j < |ends| && ends[j].edit.key == key ==> ends[j].home != home) || section != NewHome(lines, home) ==>
              Get(Entries(t, "", AppendGroup(lines, home, Group(ends, home))), section, key)
              == Get(Entries(t, "", lines), section, key)
  {
    var before, after := EntriesOfAppendGroup(t, lines, ends, home);
    var group := GroupEntries(ends, home, NewHome(lines, home));
    GetConcat(before, after, section, key);
    GetConcat(before + group, after, section, key);
    GetConcat(before, group, section, key);
    GetOfGroup(ends, home, NewHome(lines, home), section, key);
  }

  // ---- All appended groups ------------------------------------------------------------

  // Appending the homes listed so far gives (section, key) the value of edit j.
  ghost predicate AddedAt(lines: seq<string>, ends: seq<Plan>, homes: seq<string>, j: int, section: string, key: string) {
    0 <= j < |ends| && ends[j].home in homes && ends[j].edit.key == key && section == NewHome(lines, ends[j].home)
  }

  ghost predicate HomesOf(ends: seq<Plan>, homes: seq<string>) {
    && (forall i, j :: 0 <= i < j < |homes| ==> homes[i] != homes[j])
    && (forall i :: 0 <= i < |homes| ==> exists j :: 0 <= j < |ends| && ends[j].home == homes[i])
  }

  lemma {:induction false} NewHomeOfAppendAll(t: Table, lines: seq<string>, ends: seq<Plan>, homes: seq<string>, home: string)
    requires ValidTable(t) && Settable(t, ends) && HomesOf(ends, homes)
    requires Lower(home) == home && home !in homes
    ensures NewHome(AppendAll(lines, ends, homes), home) == NewHome(lines, home)
    decreases homes
  {
    hide Entries, Classify, AppendGroup, Group;
    if homes != [] {
      var n := |homes| - 1;
      var last, sofar := homes[n], AppendAll(lines, ends, homes[..n]);
      HomesPrefix(ends, homes);
      NewHomeOfAppendAll(t, lines, ends, homes[..n], home);
      var j :| 0 <= j < |ends| && ends[j].home == last;
      assert !Same(last, home);
      var before, after := EntriesOfAppendGroup(t, sofar, ends, last);
      FirstNameSkips(HeaderNames(sofar), last, home);
      assert HeaderNames(sofar) + [] == HeaderNames(sofar);
    }
  }

  lemma HomesPrefix(ends: seq<Plan>, homes: seq<string>)
    requires HomesOf(ends, homes) && homes != []
    ensures HomesOf(ends, homes[..|homes| - 1])
    ensures homes[|homes| - 1] !in homes[..|homes| - 1]
  {
  }

  lemma {:induction false} GetOfAppendAll(t: Table, lines: seq<string>, ends: seq<Plan>, homes: seq<string>,
                                          section: string, key: string)
    requires ValidTable(t) && Settable(t, ends) && HomesOf(ends, homes)
    requires forall j :: 0 <= j < |ends| ==> !Present(Entries(t, "", lines), ends[j].home, ends[j].edit.key)
    ensures forall j :: AddedAt(lines, ends, homes, j, section, key) ==>
              Get(Entries(t, "", AppendAll(lines, ends, homes)), section, key) == Some(Trim(ends[j].edit.value.value))
    ensures (forall j :: !AddedAt(lines, ends, homes, j, section, key)) ==>
              Get(Entries(t, "", AppendAll(lines, ends, homes)), section, key) == Get(Entries(t, "", lines), section, key)
    decreases homes
  {
    hide Entries, Classify, AppendGroup, Group, HeaderNames;
    if homes != [] {
      var n := |homes| - 1;
      var home, sofar := homes[n], AppendAll(lines, ends, homes[..n]);
      HomesPrefix(ends, homes);
      GetOfAppendAll(t, lines, ends, homes[..n], section, key);
      var w :| 0 <= w < |ends| && ends[w].home == home;
      NewHomeOfAppendAll(t, lines, ends, homes[..n], home);
      AddedSplit(lines, ends, homes, section, key);
      if j :| 0 <= j < |ends| && ends[j].home == home && ends[j].edit.key == key && section == NewHome(lines, home) {
        AddedIsNew(t, lines, ends, homes[..n], j, section, key);
      }
      GetOfAppendGroup(t, sofar, ends, home, section, key);
    }
  }

  lemma AddedSplit(lines: seq<string>, ends: seq<Plan>, homes: seq<string>, section: string, key: string)
    requires homes != []
    ensures forall j :: AddedAt(lines, ends, homes, j, section, key) <==>
              || AddedAt(lines, ends, homes[..|homes| - 1], j, section, key)
              || (0 <= j < |ends| && ends[j].home == homes[|homes| - 1] && ends[j].edit.key == key
                  && section == NewHome(lines, homes[|homes| - 1]))
  {
    assert homes == homes[..|homes| - 1] + [homes[|homes| - 1]];
  }

  // An edit of the last home finds its key nowhere: not in the file, and not
  // among the groups already appended.
  lemma AddedIsNew(t: Table, lines: seq<string>, ends: seq<Plan>, homes: seq<string>, j: nat, section: string, key: string)
    requires DistinctKeys(ends) && j < |ends|
    requires ends[j].home !in homes && ends[j].edit.key == key && section == NewHome(lines, ends[j].home)
    requires !Present(Entries(t, "", lines), ends[j].home, ends[j].edit.key)
    ensures forall i :: !AddedAt(lines, ends, homes, i, section, key)
    ensures Get(Entries(t, "", lines), section, key) == None
  {
    forall i
      ensures !AddedAt(lines, ends, homes, i, section, key)
    {
      if AddedAt(lines, ends, homes, i, section, key) {
        assert Same(ends[i].edit.key, ends[j].edit.key);
      }
    }
    GetFound(Entries(t, "", lines), section, key);
    FirstNameIsSame(HeaderNames(lines), ends[j].home);
  }
}
