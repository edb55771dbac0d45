/** The laws carried from lines to the text of the file, and what happens to
    the lines the editor does not own. */
module WslFile {
  import opened Wrappers
  import opened Text
  import opened WslConfig
  import opened WslLines
  import opened WslLaws
  import opened WslTheorems
  import opened WslEditor

  // ---- Lines that survive -------------------------------------------------------------

  predicate Subsequence<T(==)>(a: seq<T>, b: seq<T>) {
    a == [] || (b != [] && ((a[0] == b[0] && Subsequence(a[1..], b[1..])) || Subsequence(a, b[1..])))
  }

  lemma {:induction false} SubsequenceOfItself<T>(a: seq<T>)
    ensures Subsequence(a, a)
  {
    if a != [] {
      SubsequenceOfItself(a[1..]);
    }
  }

  lemma {:induction false} SubsequenceGrows<T>(a: seq<T>, m: seq<T>, b: seq<T>)
    requires Subsequence(a, b)
    ensures Subsequence(a, m + b)
  {
    if m == [] {
      assert m + b == b;
    } else {
      SubsequenceGrows(a, m[1..], b);
      assert (m + b)[1..] == m[1..] + b;
    }
  }

  lemma {:induction false} SubsequenceOfInsert<T>(a: seq<T>, x: seq<T>, m: seq<T>, y: seq<T>)
    requires Subsequence(a, x + y)
    ensures Subsequence(a, x + m + y)
    decreases |x|
  {
    if x == [] {
      assert x + y == y && x + m + y == m + y;
      SubsequenceGrows(a, m, y);
    } else if a != [] {
      var before, after := x + y, x + m + y;
      assert before[0] == x[0] == after[0];
      assert before[1..] == x[1..] + y && after[1..] == x[1..] + m + y;
      if a[0] == x[0] && Subsequence(a[1..], x[1..] + y) {
        SubsequenceOfInsert(a[1..], x[1..], m, y);
        assert Subsequence(a[1..], after[1..]);
      } else {
        SubsequenceOfInsert(a, x[1..], m, y);
        assert Subsequence(a, after[1..]);
      }
    }
  }

  // The lines no edit is aimed at.
  function Kept(t: Table, section: string, lines: seq<string>, plan: seq<Plan>): seq<string>
    decreases lines
  {
    if lines == [] then []
    else
      var s := NextSection(section, lines[0]);
      (if EditAt(t, s, lines[0], plan).None? then [lines[0]] else []) + Kept(t, s, lines[1..], plan)
  }

  // The lines the append phase writes.
  function Added(lines: seq<string>, ends: seq<Plan>, homes: seq<string>): seq<string>
    requires forall i :: 0 <= i < |ends| ==> ends[i].edit.value.Some?
  {
    if homes == [] then []
    else
      var n := |homes| - 1;
      var sofar := AppendAll(lines, ends, homes[..n]);
      Added(lines, ends, homes[..n]) + (Heading(sofar, homes[n]) + Group(ends, homes[n]))
  }

  lemma {:induction false} KeptSurvive(t: Table, section: string, lines: seq<string>, plan: seq<Plan>)
    ensures Subsequence(Kept(t, section, lines, plan), Rewrite(t, section, lines, plan))
    decreases lines
  {
    if lines != [] {
      var s := NextSection(section, lines[0]);
      var out, rest := RewriteLine(t, s, lines[0], plan), Rewrite(t, s, lines[1..], plan);
      KeptSurvive(t, s, lines[1..], plan);
      if EditAt(t, s, lines[0], plan).None? {
        assert (out + rest)[1..] == rest;
        var kept := Kept(t, s, lines[1..], plan);
        assert ([lines[0]] + kept)[1..] == kept;
      } else {
        SubsequenceGrows(Kept(t, s, lines[1..], plan), out, rest);
        assert Kept(t, section, lines, plan) == Kept(t, s, lines[1..], plan);
      }
    }
  }

  // What one group writes besides its keys.
  function Heading(lines: seq<string>, home: string): seq<string> {
    if FirstHeader(lines, home).None? then Opening(lines, home) else []
  }

  lemma InsertOnlyAdds<T>(a: seq<T>, head: seq<T>, m: seq<T>, tail: seq<T>)
    requires Subsequence(a, head + tail)
    ensures Subsequence(a, head + m + tail)
    ensures multiset(head + m + tail) == multiset(head + tail) + multiset(m)
  {
    SubsequenceOfInsert(a, head, m, tail);
  }

  lemma AtTheEnd<T>(x: seq<T>, y: seq<T>, z: seq<T>)
    ensures x + y + z == x[..|x|] + (y + z) + x[|x|..]
  {
  }

  // A group, heading and all, is one insertion.
  lemma GroupIsInsert(lines: seq<string>, home: string, group: seq<string>) returns (at: nat)
    ensures at <= |lines|
    ensures AppendGroup(lines, home, group) == lines[..at] + (Heading(lines, home) + group) + lines[at..]
  {
    if FirstHeader(lines, home).Some? {
      at := InsertionPoint(lines, home);
      assert Heading(lines, home) + group == group;
    } else {
      at := |lines|;
      AtTheEnd(lines, Opening(lines, home), group);
    }
  }

  lemma GroupOnlyAdds(a: seq<string>, lines: seq<string>, home: string, group: seq<string>)
    requires Subsequence(a, lines)
    ensures Subsequence(a, AppendGroup(lines, home, group))
    ensures multiset(AppendGroup(lines, home, group)) ==
            multiset(lines) + multiset(Heading(lines, home) + group)
  {
    var at := GroupIsInsert(lines, home, group);
    assert lines == lines[..at] + lines[at..];
    InsertOnlyAdds(a, lines[..at], Heading(lines, home) + group, lines[at..]);
  }

  lemma {:induction false} AppendOnlyAdds(a: seq<string>, lines: seq<string>, ends: seq<Plan>, homes: seq<string>)
    requires forall i :: 0 <= i < |ends| ==> ends[i].edit.value.Some?
    requires Subsequence(a, lines)
    ensures Subsequence(a, AppendAll(lines, ends, homes))
    ensures multiset(AppendAll(lines, ends, homes)) == multiset(lines) + multiset(Added(lines, ends, homes))
    decreases homes
  {
    if homes != [] {
      var n := |homes| - 1;
      var sofar := AppendAll(lines, ends, homes[..n]);
      AppendOnlyAdds(a, lines, ends, homes[..n]);
      GroupOnlyAdds(a, sofar, homes[n], Group(ends, homes[n]));
    }
  }

  /** Line frame: the lines no edit is aimed at come through unchanged and in
      order, every line rewritten in place stays in its place among them, and
      the rest of the file is what the append phase wrote, nothing else. */
  lemma LineFrame(t: Table, lines: seq<string>, plan: seq<Plan>)
    ensures Subsequence(Kept(t, "", lines, plan), Apply(t, lines, plan))
    ensures Subsequence(Rewrite(t, "", lines, plan), Apply(t, lines, plan))
    ensures var ends := Ends(t, lines, plan);
            multiset(Apply(t, lines, plan)) ==
            multiset(Rewrite(t, "", lines, plan)) + multiset(Added(Rewrite(t, "", lines, plan), ends, Homes(ends)))
  {
    var ends := Ends(t, lines, plan);
    KeptSurvive(t, "", lines, plan);
    var out := Rewrite(t, "", lines, plan);
    AppendOnlyAdds(Kept(t, "", lines, plan), out, ends, Homes(ends));
    SubsequenceOfItself(out);
    AppendOnlyAdds(out, out, ends, Homes(ends));
  }

  // ---- From lines to text and back ------------------------------------------------------

  predicate OneLine(s: string) {
    '\n' !in s
  }

  ghost predicate OneLiners(lines: seq<string>) {
    forall l :: l in lines ==> OneLine(l)
  }

  lemma StripCrReadsTheSame(line: string)
    ensures Trim(StripCr(line)) == Trim(line)
  {
    if line != [] && line[|line| - 1] == '\r' {
      var u := line[..|line| - 1];
      assert TrimEnd(line) == TrimEnd(u);
      TrimOfTrimEnd(u);
      TrimOfTrimEnd(line);
    }
  }

  lemma {:induction false} EntriesOfText(t: Table, section: string, lines: seq<string>, ending: string)
    requires OneLiners(lines) && (ending == "" || ending == "\n")
    ensures Entries(t, section, Lines(Join(lines) + ending)) == Entries(t, section, lines)
    decreases |lines|
  {
    if lines == [] {
      EmptyText(t, section, ending);
    } else {
      var first, rest := lines[0], lines[1..];
      assert first in lines;
      assert forall l :: l in rest ==> l in lines;
      if rest == [] {
        assert lines == [first];
        LastLine(t, section, first, ending);
      } else {
        var tail, s := Lines(Join(rest) + ending), NextSection(section, first);
        FirstLine(lines, ending);
        StripCrReadsTheSame(first);
        EntriesOfText(t, s, rest, ending);
        assert ([StripCr(first)] + tail)[1..] == tail;
        assert Classify(StripCr(first)) == Classify(first);
      }
    }
  }

  lemma FirstLine(lines: seq<string>, ending: string)
    requires |lines| > 1 && OneLine(lines[0])
    ensures Lines(Join(lines) + ending) == [StripCr(lines[0])] + Lines(Join(lines[1..]) + ending)
  {
    var tail := Join(lines[1..]) + ending;
    var text := Join(lines) + ending;
    assert text == lines[0] + ['\n'] + tail;
    SplitOnceAt(lines[0], tail, '\n');
  }

  lemma EmptyText(t: Table, section: string, ending: string)
    requires ending == "" || ending == "\n"
    ensures Entries(t, section, Lines([] + ending)) == []
  {
    var empty: string := [];
    assert Classify(empty) == Other;
    if ending == "\n" {
      SplitOnceAt([], [], '\n');
      assert [] + ['\n'] + [] == [] + ending;
      assert Lines([] + ending) == [empty];
      SingleLine(t, section, empty);
    } else {
      assert empty + ending == [];
    }
  }

  lemma LastLine(t: Table, section: string, line: string, ending: string)
    requires OneLine(line) && (ending == "" || ending == "\n")
    ensures Entries(t, section, Lines(line + ending)) == Entries(t, section, [line])
  {
    StripCrReadsTheSame(line);
    SingleLine(t, section, line);
    SingleLine(t, section, StripCr(line));
    if ending == "\n" {
      SplitOnceAt(line, [], '\n');
      assert line + ['\n'] + [] == line + ending;
      assert Lines(line + ending) == [StripCr(line)];
    } else if line == [] {
      assert Classify(line) == Other;
      assert line + ending == [];
    } else {
      SplitOnceNone(line, '\n');
      assert line + ending == line;
      assert Lines(line) == [line];
    }
  }

  lemma {:induction false} LinesAreOneLiners(text: string)
    ensures OneLiners(Lines(text))
    decreases |text|
  {
    if text != [] {
      SplitOnceNone(text, '\n');
      match SplitOnce(text, '\n') {
        case None =>
          assert Lines(text) == [text];
        case Some(p) =>
          LinesAreOneLiners(p.1);
          assert OneLine(StripCr(p.0));
      }
    }
  }

  ghost predicate SingleLineValues(plan: seq<Plan>) {
    forall i :: 0 <= i < |plan| && plan[i].edit.value.Some? ==> OneLine(plan[i].edit.value.value)
  }

  // A property of the file's lines and of what an edit can write.
  ghost predicate AllGood(lines: seq<string>, good: string -> bool) {
    forall l :: l in lines ==> good(l)
  }

  ghost predicate WritesGood(plan: seq<Plan>, good: string -> bool) {
    forall i :: 0 <= i < |plan| && plan[i].edit.value.Some? ==> good(Format(plan[i].edit.key, plan[i].edit.value.value))
  }

  ghost predicate HeadsGood(t: Table, good: string -> bool) {
    good("") && forall s :: s in t.home.Values ==> good("[" + s + "]")
  }

  lemma {:induction false} RewriteKeeps(t: Table, section: string, lines: seq<string>, plan: seq<Plan>, good: string -> bool)
    requires AllGood(lines, good) && WritesGood(plan, good)
    ensures AllGood(Rewrite(t, section, lines, plan), good)
    decreases lines
  {
    if lines != [] {
      assert lines[0] in lines;
      assert forall l :: l in lines[1..] ==> l in lines;
      RewriteKeeps(t, NextSection(section, lines[0]), lines[1..], plan, good);
    }
  }

  lemma {:induction false} GroupIsGood(ends: seq<Plan>, home: string, good: string -> bool)
    requires WritesGood(ends, good) && forall i :: 0 <= i < |ends| ==> ends[i].edit.value.Some?
    ensures AllGood(Group(ends, home), good)
  {
    if ends != [] {
      GroupIsGood(ends[1..], home, good);
    }
  }

  lemma {:induction false} AddedIsGood(t: Table, lines: seq<string>, ends: seq<Plan>, homes: seq<string>, good: string -> bool)
    requires Settable(t, ends) && HomesOf(ends, homes)
    requires WritesGood(ends, good) && HeadsGood(t, good)
    ensures AllGood(Added(lines, ends, homes), good)
    decreases homes
  {
    hide AppendAll, FirstHeader, Classify;
    if homes != [] {
      var n := |homes| - 1;
      HomesPrefix(ends, homes);
      AddedIsGood(t, lines, ends, homes[..n], good);
      GroupIsGood(ends, homes[n], good);
      var j :| 0 <= j < |ends| && ends[j].home == homes[n];
      assert homes[n] in t.home.Values;
    }
  }

  // What holds of the file's lines and of what is written holds of the result.
  lemma ApplyKeeps(t: Table, lines: seq<string>, plan: seq<Plan>, good: string -> bool)
    requires ValidTable(t) && Sound(t, plan) && Targeted(t, Entries(t, "", lines), plan)
    requires AllGood(lines, good) && WritesGood(plan, good) && HeadsGood(t, good)
    ensures AllGood(Apply(t, lines, plan), good)
  {
    var ends, out := Ends(t, lines, plan), Rewrite(t, "", lines, plan);
    EndsAreMissing(t, lines, plan);
    LineFrame(t, lines, plan);
    RewriteKeeps(t, "", lines, plan, good);
    forall j | 0 <= j < |ends|
      ensures good(Format(ends[j].edit.key, ends[j].edit.value.value))
    {
      assert ends[j] in plan;
    }
    AddedIsGood(t, out, ends, Homes(ends), good);
    forall l | l in Apply(t, lines, plan)
      ensures good(l)
    {
      assert l in multiset(Apply(t, lines, plan));
    }
  }

  lemma ApplyIsOneLiners(t: Table, lines: seq<string>, plan: seq<Plan>)
    requires ValidTable(t) && Sound(t, plan) && Targeted(t, Entries(t, "", lines), plan)
    requires SingleLineValues(plan) && OneLiners(lines)
    ensures OneLiners(Apply(t, lines, plan))
  {
    forall i | 0 <= i < |plan| && plan[i].edit.value.Some?
      ensures OneLine(Format(plan[i].edit.key, plan[i].edit.value.value))
    {
      OwnedIsPlain(t, plan[i].edit.key);
    }
    ApplyKeeps(t, lines, plan, OneLine);
  }

  // The saved text reads like the lines it was made of.
  lemma SavedTextReads(t: Table, raw: string, plan: seq<Plan>)
    requires ValidTable(t) && Sound(t, plan) && Targeted(t, Entries(t, "", Lines(raw)), plan)
    requires SingleLineValues(plan)
    ensures Read(t, Lines(Edited(t, raw, plan))) == Read(t, Apply(t, Lines(raw), plan))
  {
    var ending := EditedIsJoined(t, raw, plan);
    LinesAreOneLiners(raw);
    ApplyIsOneLiners(t, Lines(raw), plan);
    EntriesOfText(t, "", Apply(t, Lines(raw), plan), ending);
  }

  lemma EditedIsJoined(t: Table, raw: string, plan: seq<Plan>) returns (ending: string)
    ensures ending == "" || ending == "\n"
    ensures Edited(t, raw, plan) == Join(Apply(t, Lines(raw), plan)) + ending
  {
    var text := Join(Apply(t, Lines(raw), plan));
    ending := if EndsLine(raw) || (raw == "" && text != "") then "\n" else "";
    assert text + "" == text;
  }

  // ---- The lens laws on the file ---------------------------------------------------------

  ghost predicate GoodEdits(t: Table, edits: seq<Edit>) {
    && (forall i :: 0 <= i < |edits| ==> Owned(t, edits[i].key))
    && (forall i, j :: 0 <= i < j < |edits| ==> !Same(edits[i].key, edits[j].key))
    && (forall i :: 0 <= i < |edits| && edits[i].value.Some? ==> OneLine(edits[i].value.value))
  }

  lemma GoodPlan(t: Table, raw: string, edits: seq<Edit>, order: seq<EntryKey>)
    requires ValidTable(t) && GoodEdits(t, edits)
    requires forall c :: c in order <==> c in Read(t, Lines(raw))
    ensures var plan := Planned(t, order, edits);
            Sound(t, plan) && SingleLineValues(plan) && Targeted(t, Entries(t, "", Lines(raw)), plan)
  {
    PlannedIsTargeted(t, Lines(raw), order, edits);
  }

  /** The editor is a lens on the text of the file. What was put is read back:
      in its target section every spelling of an edited key reads the trimmed
      value set, and there is one; a removed key is read in no spelling. */
  lemma SavedIsRead(t: Table, raw: string, edits: seq<Edit>, order: seq<EntryKey>, i: nat)
    requires ValidTable(t) && GoodEdits(t, edits) && i < |edits|
    requires forall c :: c in order <==> c in Read(t, Lines(raw))
    ensures var after := Read(t, Lines(Edited(t, raw, Planned(t, order, edits))));
            var home, e := Target(t, order, edits[i].key), edits[i];
            && (forall c :: c in after && Same(c.0, home) && Same(c.1, e.key) ==>
                  e.value.Some? && after[c] == Trim(e.value.value))
            && (e.value.Some? ==> exists c :: c in after && Same(c.0, home) && Same(c.1, e.key))
  {
    hide Apply, Entries, Read, Target, Lines, Edited;
    var plan := Planned(t, order, edits);
    GoodPlan(t, raw, edits, order);
    SavedTextReads(t, raw, plan);
    PutGet(t, Lines(raw), plan, i);
  }

  /** The settings window shows the value that was saved, where it was saved. */
  lemma SavedIsShown(t: Table, raw: string, edits: seq<Edit>, order: seq<EntryKey>, i: nat, after: seq<EntryKey>)
    requires ValidTable(t) && GoodEdits(t, edits) && i < |edits|
    requires forall c :: c in order <==> c in Read(t, Lines(raw))
    requires forall c :: c in after <==> c in Read(t, Lines(Edited(t, raw, Planned(t, order, edits))))
    ensures var shown := Shown(t, after, Read(t, Lines(Edited(t, raw, Planned(t, order, edits)))), edits[i].key);
            && (edits[i].value.Some? ==>
                  Same(shown.0, Target(t, order, edits[i].key)) && shown.1 == Some(Trim(edits[i].value.value)))
            && (edits[i].value.None? ==>
                  (shown.1.Some? <==> exists c :: c in Read(t, Lines(raw)) && Same(c.1, edits[i].key)
                                                  && !Same(c.0, Target(t, order, edits[i].key))))
  {
    var plan := Planned(t, order, edits);
    GoodPlan(t, raw, edits, order);
    SavedTextReads(t, raw, plan);
    ShownAfterEdit(t, Lines(raw), plan, i, after);
  }

  /** Every setting no edit is aimed at reads as it did before the save. */
  lemma OthersReadAsBefore(t: Table, raw: string, edits: seq<Edit>, order: seq<EntryKey>, c: EntryKey)
    requires ValidTable(t) && GoodEdits(t, edits)
    requires forall c :: c in order <==> c in Read(t, Lines(raw))
    requires forall i :: 0 <= i < |edits| ==> !(Same(Target(t, order, edits[i].key), c.0) && Same(edits[i].key, c.1))
    ensures var was, now := Read(t, Lines(raw)), Read(t, Lines(Edited(t, raw, Planned(t, order, edits))));
            (c in now <==> c in was) && (c in was ==> now[c] == was[c])
  {
    var plan := Planned(t, order, edits);
    GoodPlan(t, raw, edits, order);
    SavedTextReads(t, raw, plan);
    ReadFrame(t, Lines(raw), plan, c);
  }
}
