/** Saving twice, to the letter: what a second, identical save does to the text of
    a file that ends in a newline, carriage returns and all. */
module WslLetter {
  import opened Wrappers
  import opened Text
  import opened WslConfig
  import opened WslLines
  import opened WslLaws
  import opened WslTheorems
  import opened WslEditor
  import opened WslFile
  import opened WslSteady

  // ---- The same lines are left alone the second time ---------------------------------

  lemma KeptFirst(t: Table, section: string, lines: seq<string>, plan: seq<Plan>)
    requires lines != []
    ensures var s := NextSection(section, lines[0]);
            Kept(t, section, lines, plan) ==
            (if EditAt(t, s, lines[0], plan).None? then [lines[0]] else []) + Kept(t, s, lines[1..], plan)
  {
    hide EditAt, Classify;
  }

  lemma {:induction false} KeptConcat(t: Table, section: string, a: seq<string>, b: seq<string>, plan: seq<Plan>)
    ensures Kept(t, section, a + b, plan) == Kept(t, section, a, plan) + Kept(t, SectionAfter(section, a), b, plan)
    decreases a
  {
    hide EditAt, NextSection;
    if a == [] {
      assert a + b == b;
    } else {
      KeptFirst(t, section, a + b, plan);
      KeptFirst(t, section, a, plan);
      hide Kept;
      assert (a + b)[0] == a[0] && (a + b)[1..] == a[1..] + b;
      KeptConcat(t, NextSection(section, a[0]), a[1..], b, plan);
    }
  }

  lemma KeptOfOne(t: Table, section: string, line: string, plan: seq<Plan>)
    ensures Kept(t, section, [line], plan) ==
            if EditAt(t, NextSection(section, line), line, plan).None? then [line] else []
  {
    hide EditAt;
    assert [line][1..] == [];
  }

  lemma KeptOfRewritten(t: Table, section: string, line: string, first: seq<Plan>, second: seq<Plan>)
    requires ValidTable(t) && Sound(t, first) && Sound(t, second) && Again(first, second)
    requires NextSection(section, line) == section && RemovesAll(EntryOf(t, section, line), first)
    ensures Kept(t, section, RewriteLine(t, section, line, first), second) ==
            if EditAt(t, section, line, first).None? then [line] else []
  {
    hide Sound, Again;
    var hit := EditAt(t, section, line, first);
    if hit.None? {
      UntouchedIsSteady(t, section, line, first, second);
      KeptOfOne(t, section, line, second);
    } else if first[hit.value].edit.value.Some? {
      AgainAt(first, second, hit.value);
      FormatIsSteady(t, section, second, hit.value);
      KeptOfOne(t, section, Format(first[hit.value].edit.key, first[hit.value].edit.value.value), second);
    }
  }

  lemma AgainAt(first: seq<Plan>, second: seq<Plan>, i: nat)
    requires Again(first, second) && i < |first|
    ensures |second| == |first| && first[i].edit == second[i].edit
    ensures first[i].edit.value.Some? ==> Same(first[i].home, second[i].home)
  {
  }

  lemma {:induction false} FirstPassKeeps(t: Table, section: string, lines: seq<string>, first: seq<Plan>, second: seq<Plan>)
    requires ValidTable(t) && Sound(t, first) && Sound(t, second) && Again(first, second)
    requires RemovesAll(Entries(t, section, lines), first)
    ensures Kept(t, section, Rewrite(t, section, lines, first), second) == Kept(t, section, lines, first)
    decreases lines
  {
    if lines != [] {
      hide Sound, Again, EditAt, RewriteLine;
      var s := NextSection(section, lines[0]);
      var out, rest := RewriteLine(t, s, lines[0], first), Rewrite(t, s, lines[1..], first);
      HeaderNamesItself(section, lines[0]);
      KeptOfRewritten(t, s, lines[0], first, second);
      FirstPassKeeps(t, s, lines[1..], first, second);
      RewrittenLine(t, s, lines[0], first);
      KeptConcat(t, s, out, rest, second);
      KeptFromSection(t, section, s, out + rest, lines[0], second);
    }
  }

  lemma KeptFromSection(t: Table, section: string, s: string, lines: seq<string>, head: string, plan: seq<Plan>)
    requires s == NextSection(section, head)
    requires s == section || (lines != [] && lines[0] == head)
    ensures Kept(t, section, lines, plan) == Kept(t, s, lines, plan)
  {
  }

  lemma {:induction false} GroupIsNotKept(t: Table, ends: seq<Plan>, home: string, name: string, plan: seq<Plan>)
    requires ValidTable(t) && Sound(t, plan) && Same(home, name) && InOwned(t, name)
    requires DrawnFrom(ends, plan)
    requires forall i :: 0 <= i < |ends| ==> ends[i].edit.value.Some?
    ensures Kept(t, name, Group(ends, home), plan) == []
  {
    if ends != [] {
      hide Sound, EditAt, Classify;
      GroupIsNotKept(t, ends[1..], home, name, plan);
      var rest := Group(ends[1..], home);
      if ends[0].home == home {
        assert DrawnAt(ends[0], plan);
        var i :| 0 <= i < |plan| && plan[i].edit == ends[0].edit && Same(plan[i].home, ends[0].home);
        FormatIsSteady(t, name, plan, i);
        var line := Format(ends[0].edit.key, ends[0].edit.value.value);
        SingleLine(t, name, line);
        KeptConcat(t, name, [line], rest, plan);
        KeptOfOne(t, name, line, plan);
      } else {
        assert [] + rest == rest;
      }
    }
  }

  ghost predicate Bare(lines: seq<string>) {
    AllGood(lines, NoStrayCr)
  }

  lemma BareTogether(a: seq<string>, b: seq<string>)
    ensures Bare(a + b) <==> Bare(a) && Bare(b)
  {
    assert forall l :: l in a + b <==> l in a || l in b;
  }

  // A new section's heading has no carriage return to lose.
  lemma OpeningIsBare(t: Table, section: string, lines: seq<string>, home: string, plan: seq<Plan>)
    requires Plain(home)
    ensures Bare(Kept(t, section, Opening(lines, home), plan))
  {
    hide Classify, EditAt;
    var line, empty: string := "[" + home + "]", "";
    KeptOfOne(t, section, empty, plan);
    KeptOfOne(t, section, line, plan);
    KeptOfOne(t, SectionAfter(section, [empty]), line, plan);
    KeptConcat(t, section, [empty], [line], plan);
    assert Opening(lines, home) == [line] || Opening(lines, home) == [empty] + [line];
    assert NoStrayCr(line) && NoStrayCr(empty);
  }

  // An appended group leaves what was kept as it was.
  lemma AppendGroupKeeps(t: Table, lines: seq<string>, home: string, group: seq<string>, plan: seq<Plan>)
    requires Plain(home) && Kept(t, NewHome(lines, home), group, plan) == []
    requires SectionAfter(NewHome(lines, home), group) == NewHome(lines, home)
    ensures Bare(Kept(t, "", AppendGroup(lines, home, group), plan)) <==> Bare(Kept(t, "", lines, plan))
  {
    hide Kept, Bare, Entries, Classify, HeaderNames, SectionAfter;
    FirstHeaderIsNewHome(lines, home);
    var name := NewHome(lines, home);
    if FirstHeader(lines, home).Some? {
      var at := InsertionPoint(lines, home);
      var head, tail := lines[..at], lines[at..];
      assert lines == head + tail;
      KeptConcat(t, "", head, tail, plan);
      KeptConcat(t, "", head + group, tail, plan);
      KeptConcat(t, "", head, group, plan);
      SectionAfterConcat("", head, group);
      assert Kept(t, "", head, plan) + [] == Kept(t, "", head, plan);
    } else {
      var opening := Opening(lines, home);
      OpeningIsHeader(t, SectionAfter("", lines), lines, home);
      OpeningIsBare(t, SectionAfter("", lines), lines, home, plan);
      KeptConcat(t, "", lines + opening, group, plan);
      KeptConcat(t, "", lines, opening, plan);
      SectionAfterConcat("", lines, opening);
      BareTogether(Kept(t, "", lines, plan), Kept(t, SectionAfter("", lines), opening, plan));
      assert Kept(t, "", lines + opening, plan) + [] == Kept(t, "", lines + opening, plan);
    }
  }

  lemma {:induction false} AppendAllKeeps(t: Table, lines: seq<string>, ends: seq<Plan>, homes: seq<string>, plan: seq<Plan>)
    requires ValidTable(t) && Sound(t, plan) && Settable(t, ends) && HomesOf(ends, homes)
    requires DrawnFrom(ends, plan)
    ensures Bare(Kept(t, "", AppendAll(lines, ends, homes), plan)) <==> Bare(Kept(t, "", lines, plan))
    decreases homes
  {
    if homes != [] {
      hide Kept, Bare;
      var n := |homes| - 1;
      var home, sofar := homes[n], AppendAll(lines, ends, homes[..n]);
      HomesPrefix(ends, homes);
      AppendAllKeeps(t, lines, ends, homes[..n], plan);
      var j :| 0 <= j < |ends| && ends[j].home == home;
      FirstNameIsSame(HeaderNames(sofar), home);
      GroupIsNotKept(t, ends, home, NewHome(sofar, home), plan);
      EntriesOfGroup(t, ends, home, NewHome(sofar, home));
      AppendGroupKeeps(t, sofar, home, Group(ends, home), plan);
    }
  }

  // What the second save leaves alone has stray carriage returns only where the
  // first one's had.
  lemma SavedKeeps(t: Table, lines: seq<string>, first: seq<Plan>, second: seq<Plan>)
    requires ValidTable(t) && Sound(t, first) && Sound(t, second) && Again(first, second)
    requires Targeted(t, Entries(t, "", lines), first) && RemovesAll(Entries(t, "", lines), first)
    ensures Bare(Kept(t, "", Apply(t, lines, first), second)) <==> Bare(Kept(t, "", lines, first))
  {
    hide Kept, Bare, Rewrite, AppendAll;
    var ends := Ends(t, lines, first);
    EndsAreMissing(t, lines, first);
    EndsAreDrawn(first, second, ends);
    FirstPassKeeps(t, "", lines, first, second);
    AppendAllKeeps(t, Rewrite(t, "", lines, first), ends, Homes(ends), second);
  }

  // ---- Lines and their text ------------------------------------------------------------

  function Stripped(lines: seq<string>): seq<string> {
    if lines == [] then [] else [StripCr(lines[0])] + Stripped(lines[1..])
  }

  lemma {:induction false} LinesOfJoined(lines: seq<string>)
    requires OneLiners(lines) && lines != []
    ensures Lines(Join(lines) + "\n") == Stripped(lines)
  {
    var first, rest := lines[0], lines[1..];
    assert first in lines;
    assert forall l :: l in rest ==> l in lines;
    if rest == [] {
      assert lines == [first];
      SplitOnceAt(first, [], '\n');
      assert first + ['\n'] + [] == Join(lines) + "\n";
      assert Lines([]) == [] && Stripped([]) == [];
    } else {
      hide StripCr, Join;
      FirstLine(lines, "\n");
      LinesOfJoined(rest);
    }
  }

  lemma {:induction false} JoinIsOneToOne(a: seq<string>, b: seq<string>)
    requires OneLiners(a) && OneLiners(b) && |a| == |b| && Join(a) == Join(b)
    ensures a == b
  {
    if |a| > 1 {
      assert a[0] in a && b[0] in b;
      assert forall l :: l in a[1..] ==> l in a;
      assert forall l :: l in b[1..] ==> l in b;
      SplitOnceAt(a[0], Join(a[1..]), '\n');
      SplitOnceAt(b[0], Join(b[1..]), '\n');
      assert Join(a) == a[0] + ['\n'] + Join(a[1..]);
      assert Join(b) == b[0] + ['\n'] + Join(b[1..]);
      JoinIsOneToOne(a[1..], b[1..]);
      assert a == [a[0]] + a[1..] && b == [b[0]] + b[1..];
    }
  }

  // Stripped lines read and are aimed at like the lines themselves; rewritten, they
  // are the lines again exactly when no line left alone lost anything.
  lemma {:induction false} RewriteOfStripped(t: Table, section: string, lines: seq<string>, plan: seq<Plan>)
    requires Steady(t, section, lines, plan)
    ensures var out := Rewrite(t, section, Stripped(lines), plan);
            && |out| == |lines|
            && (forall i :: 0 <= i < |lines| ==> out[i] == lines[i] || out[i] == StripCr(lines[i]))
            && (out == lines <==> Bare(Kept(t, section, lines, plan)))
    decreases lines
  {
    if lines != [] {
      hide StripCr, EditAt, Steady, Bare, Classify;
      var s, line, rest := NextSection(section, lines[0]), lines[0], lines[1..];
      StrippedFirst(t, section, lines, plan);
      RewriteOfStripped(t, s, rest, plan);
      KeptFirst(t, section, lines, plan);
      hide Rewrite, Kept, Stripped;
      var hit, tail := EditAt(t, s, line, plan), Rewrite(t, s, Stripped(rest), plan);
      assert lines == [line] + rest;
      BareTogether(if hit.None? then [line] else [], Kept(t, s, rest, plan));
      BareLine(line);
      ConsEqual(if hit.Some? then line else StripCr(line), tail, line, rest);
    } else {
      assert Bare([]);
    }
  }

  lemma BareLine(line: string)
    ensures Bare([]) && (Bare([line]) <==> StripCr(line) == line)
  {
    assert line in [line];
  }

  lemma ConsEqual<T>(x: T, a: seq<T>, y: T, b: seq<T>)
    ensures [x] + a == [y] + b <==> x == y && a == b
  {
    assert ([x] + a)[0] == x && ([x] + a)[1..] == a;
    assert ([y] + b)[0] == y && ([y] + b)[1..] == b;
  }

  lemma StrippedFirst(t: Table, section: string, lines: seq<string>, plan: seq<Plan>)
    requires lines != [] && Steady(t, section, lines, plan)
    ensures var s, line := NextSection(section, lines[0]), lines[0];
            && Steady(t, s, lines[1..], plan)
            && Rewrite(t, section, Stripped(lines), plan) ==
               [if EditAt(t, s, line, plan).Some? then line else StripCr(line)] + Rewrite(t, s, Stripped(lines[1..]), plan)
  {
    hide StripCr, Trim, SplitKv, HeaderName, IsHeader, Find;
    var line := lines[0];
    StripCrReadsTheSame(line);
    assert Classify(StripCr(line)) == Classify(line);
    assert Stripped(lines)[0] == StripCr(line) && Stripped(lines)[1..] == Stripped(lines[1..]);
    hide Classify, Stripped;
  }

  // ---- Exactly when --------------------------------------------------------------------

  // The second save of a file already steady, to the letter.
  lemma SteadyToTheLetter(t: Table, lines: seq<string>, plan: seq<Plan>)
    requires ValidTable(t) && Sound(t, plan) && Targeted(t, Entries(t, "", lines), plan)
    requires OneLiners(lines) && Steady(t, "", lines, plan) && Ends(t, lines, plan) == []
    ensures var text := Join(lines) + "\n";
            Edited(t, text, plan) == text <==> Bare(Kept(t, "", lines, plan))
  {
    hide Steady, Kept, Join, Entries;
    var text := Join(lines) + "\n";
    EntriesOfText(t, "", lines, "\n");
    NothingLeftToAdd(t, lines, Lines(text), plan);
    var out := Rewrite(t, "", Lines(text), plan);
    assert Apply(t, Lines(text), plan) == out;
    assert text[|text| - 1] == '\n';
    assert Edited(t, text, plan) == Join(out) + "\n";
    if lines == [] {
      EmptyToTheLetter(t, plan);
    } else {
      LinesOfJoined(lines);
      RewriteOfStripped(t, "", lines, plan);
      forall l | l in out
        ensures OneLine(l)
      {
        var i :| 0 <= i < |out| && out[i] == l;
        assert lines[i] in lines;
      }
      SameEnding(Join(out), Join(lines));
      if Join(out) == Join(lines) {
        JoinIsOneToOne(out, lines);
      }
    }
  }

  lemma SameEnding(a: string, b: string)
    ensures a + "\n" == b + "\n" <==> a == b
  {
    assert a == (a + "\n")[..|a|] && b == (b + "\n")[..|b|];
    assert |a + "\n"| == |a| + 1 && |b + "\n"| == |b| + 1;
  }

  lemma EmptyToTheLetter(t: Table, plan: seq<Plan>)
    ensures Join([]) == [] && Join(Rewrite(t, "", Lines(Join([]) + "\n"), plan)) == []
    ensures Bare(Kept(t, "", [], plan))
  {
    var empty: string := [];
    assert Classify(empty) == Other;
    SplitOnceAt([], [], '\n');
    assert [] + ['\n'] + [] == Join([]) + "\n";
    assert Lines(Join([]) + "\n") == [empty];
    assert [empty][1..] == [];
    assert Rewrite(t, "", [empty], plan) == [empty];
  }

  /** Saving the same edits again leaves a file that ends in a newline as it is, to
      the letter, exactly when no removed key has a copy in the other section and no
      line the edits leave alone ends in a carriage return beyond its line end. */
  lemma SavingTwiceExactly(t: Table, raw: string, edits: seq<Edit>, order: seq<EntryKey>, again: seq<EntryKey>)
    requires ValidTable(t) && GoodEdits(t, edits) && EndsLine(raw)
    requires forall c :: c in order <==> c in Read(t, Lines(raw))
    requires forall c :: c in again <==> c in Read(t, Lines(Edited(t, raw, Planned(t, order, edits))))
    ensures var plan := Planned(t, order, edits);
            var once := Edited(t, raw, plan);
            Edited(t, once, Planned(t, again, edits)) == once <==>
            RemovesAll(Entries(t, "", Lines(raw)), plan) && Bare(Kept(t, "", Lines(raw), plan))
  {
    hide Apply, Entries, Kept, Bare, Read, RemovesAll;
    var first, second := Planned(t, order, edits), Planned(t, again, edits);
    var once, lines := Edited(t, raw, first), Apply(t, Lines(raw), first);
    GoodPlan(t, raw, edits, order);
    GoodPlan(t, once, edits, again);
    assert once == Join(lines) + "\n";
    LinesAreOneLiners(raw);
    ApplyIsOneLiners(t, Lines(raw), first);
    EntriesOfText(t, "", lines, "\n");
    SecondIsAgain(t, Lines(raw), first, second);
    if RemovesAll(Entries(t, "", Lines(raw)), first) {
      SavedIsSteady(t, Lines(raw), first, second);
      SavedKeeps(t, Lines(raw), first, second);
      SteadyToTheLetter(t, lines, second);
    } else {
      MovesOnInTheText(t, raw, first, second);
    }
  }

  lemma MovesOnInTheText(t: Table, raw: string, first: seq<Plan>, second: seq<Plan>)
    requires ValidTable(t) && Sound(t, first) && Sound(t, second) && Again(first, second)
    requires SingleLineValues(second) && Targeted(t, Entries(t, "", Lines(raw)), first)
    requires Entries(t, "", Lines(Edited(t, raw, first))) == Entries(t, "", Apply(t, Lines(raw), first))
    requires Targeted(t, Entries(t, "", Lines(Edited(t, raw, first))), second)
    requires !RemovesAll(Entries(t, "", Lines(raw)), first)
    ensures Edited(t, Edited(t, raw, first), second) != Edited(t, raw, first)
  {
    hide Apply, Entries, Edited;
    var i, e :| 0 <= i < |first| && first[i].edit.value.None? && e in Entries(t, "", Lines(raw))
                && Same(e.key, first[i].edit.key) && !Same(e.section, first[i].home);
    var once := Edited(t, raw, first);
    SecondSaveReadsLess(t, Lines(raw), first, second, i, e, Lines(once));
    SavedTextReads(t, once, second);
  }
}
