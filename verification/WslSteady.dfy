/** Saving twice: when a second, identical save leaves every line alone. */
module WslSteady {
  import opened Wrappers
  import opened Text
  import opened WslConfig
  import opened WslLines
  import opened WslLaws
  import opened WslTheorems
  import opened WslEditor
  import opened WslFile

  // Every line an edit is aimed at already says what the edit would write.
  predicate Steady(t: Table, section: string, lines: seq<string>, plan: seq<Plan>)
    decreases lines
  {
    lines == [] ||
    var s := NextSection(section, lines[0]);
    var hit := EditAt(t, s, lines[0], plan);
    && (hit.Some? ==>
          var e := plan[hit.value].edit;
          e.value.Some? && lines[0] == Format(e.key, e.value.value))
    && Steady(t, s, lines[1..], plan)
  }

  lemma {:induction false} SteadyIsUnchanged(t: Table, section: string, lines: seq<string>, plan: seq<Plan>)
    requires Steady(t, section, lines, plan)
    ensures Rewrite(t, section, lines, plan) == lines
    decreases lines
  {
    if lines != [] {
      SteadyIsUnchanged(t, NextSection(section, lines[0]), lines[1..], plan);
    }
  }

  lemma {:induction false} SteadyConcat(t: Table, section: string, a: seq<string>, b: seq<string>, plan: seq<Plan>)
    ensures Steady(t, section, a + b, plan) <==>
            Steady(t, section, a, plan) && Steady(t, SectionAfter(section, a), b, plan)
    decreases a
  {
    if a == [] {
      assert a + b == b;
    } else {
      assert (a + b)[1..] == a[1..] + b;
      SteadyConcat(t, NextSection(section, a[0]), a[1..], b, plan);
    }
  }

  // ---- The second plan ----------------------------------------------------------------

  // The same edits, planned on two files; a set key keeps its home.
  ghost predicate Again(first: seq<Plan>, second: seq<Plan>) {
    && |first| == |second|
    && forall i :: 0 <= i < |first| ==>
        && first[i].edit == second[i].edit
        && (first[i].edit.value.Some? ==> Same(first[i].home, second[i].home))
  }

  // No key to remove is set outside the section it is removed from.
  ghost predicate RemovesAll(es: seq<Entry>, plan: seq<Plan>) {
    forall i, e :: 0 <= i < |plan| && plan[i].edit.value.None? && e in es && Same(e.key, plan[i].edit.key) ==>
      Same(e.section, plan[i].home)
  }

  lemma HomeStays(t: Table, lines: seq<string>, first: seq<Plan>, second: seq<Plan>, i: nat)
    requires ValidTable(t) && Sound(t, first) && Targeted(t, Entries(t, "", lines), first)
    requires Targeted(t, Entries(t, "", Apply(t, lines, first)), second)
    requires i < |first| == |second| && first[i].edit == second[i].edit && first[i].edit.value.Some?
    ensures Same(first[i].home, second[i].home)
    ensures Present(Entries(t, "", Apply(t, lines, first)), second[i].home, second[i].edit.key)
  {
    hide Entries, Apply, AsMap;
    var before, after := Entries(t, "", lines), Entries(t, "", Apply(t, lines, first));
    var key := first[i].edit.key;
    PutGet(t, lines, first, i);
    KeysArePresence(after, key);
    KeysArePresence(before, key);
    PlaceIsPresent(t, lines, key);
    PlaceIsPresent(t, Apply(t, lines, first), key);
    ElsewhereIsKept(t, lines, first, i);
    var documented := Documented(t, key);
    assert Lower(first[i].home) != documented && Present(after, documented, key) ==> Present(before, documented, key);
  }

  lemma SecondIsAgain(t: Table, lines: seq<string>, first: seq<Plan>, second: seq<Plan>)
    requires ValidTable(t) && Sound(t, first) && Targeted(t, Entries(t, "", lines), first)
    requires Targeted(t, Entries(t, "", Apply(t, lines, first)), second)
    requires |first| == |second| && forall i :: 0 <= i < |first| ==> first[i].edit == second[i].edit
    ensures Again(first, second) && Sound(t, second)
    ensures Ends(t, Apply(t, lines, first), second) == []
  {
    hide Entries, Apply;
    forall i | 0 <= i < |first| && first[i].edit.value.Some?
      ensures Same(first[i].home, second[i].home)
      ensures Present(Entries(t, "", Apply(t, lines, first)), second[i].home, second[i].edit.key)
    {
      HomeStays(t, lines, first, second, i);
    }
    var ends := Ends(t, Apply(t, lines, first), second);
    assert ends != [] ==> ends[0] in ends;
    EndsAreMissing(t, Apply(t, lines, first), second);
    assert forall i :: 0 <= i < |second| ==> second[i] !in ends;
  }

  // ---- What the first save wrote is steady under the second plan ------------------------

  lemma FormatIsSteady(t: Table, section: string, plan: seq<Plan>, i: nat)
    requires ValidTable(t) && Sound(t, plan) && i < |plan| && plan[i].edit.value.Some?
    requires Same(plan[i].home, section)
    ensures var line := Format(plan[i].edit.key, plan[i].edit.value.value);
            NextSection(section, line) == section && Steady(t, section, [line], plan)
            && (InOwned(t, section) ==> EditAt(t, section, line, plan) == Some(i))
  {
    var e := plan[i].edit;
    var line := Format(e.key, e.value.value);
    OwnedIsPlain(t, e.key);
    ClassifyFormat(e.key, e.value.value);
    OnlyHit(plan, i, section, e.key);
    assert [line][1..] == [];
  }

  // An untouched line is not aimed at by the second plan either.
  lemma UntouchedIsSteady(t: Table, section: string, line: string, first: seq<Plan>, second: seq<Plan>)
    requires ValidTable(t) && Sound(t, first) && Again(first, second)
    requires EditAt(t, section, line, first).None? && RemovesAll(EntryOf(t, section, line), first)
    ensures EditAt(t, section, line, second).None?
  {
    var c := Classify(line);
    if c.Pair? && InOwned(t, section) {
      var e := Entry(section, c.key, c.value);
      assert Owned(t, c.key) ==> e in EntryOf(t, section, line);
      forall i | 0 <= i < |second|
        ensures !Hits(second[i], section, c.key)
      {
        assert !Hits(first[i], section, c.key);
        assert Same(first[i].edit.key, c.key) ==> Owned(t, c.key);
      }
    }
  }

  lemma RewrittenIsSteady(t: Table, section: string, line: string, first: seq<Plan>, second: seq<Plan>)
    requires ValidTable(t) && Sound(t, first) && Sound(t, second) && Again(first, second)
    requires NextSection(section, line) == section && RemovesAll(EntryOf(t, section, line), first)
    ensures Steady(t, section, RewriteLine(t, section, line, first), second)
  {
    var hit := EditAt(t, section, line, first);
    if hit.None? {
      UntouchedIsSteady(t, section, line, first, second);
      assert [line][1..] == [];
    } else if first[hit.value].edit.value.Some? {
      FormatIsSteady(t, section, second, hit.value);
    }
  }

  lemma {:induction false} FirstPassIsSteady(t: Table, section: string, lines: seq<string>, first: seq<Plan>, second: seq<Plan>)
    requires ValidTable(t) && Sound(t, first) && Sound(t, second) && Again(first, second)
    requires RemovesAll(Entries(t, section, lines), first)
    ensures Steady(t, section, Rewrite(t, section, lines, first), second)
    decreases lines
  {
    if lines != [] {
      var s := NextSection(section, lines[0]);
      var out, rest := RewriteLine(t, s, lines[0], first), Rewrite(t, s, lines[1..], first);
      HeaderNamesItself(section, lines[0]);
      RewrittenIsSteady(t, s, lines[0], first, second);
      FirstPassIsSteady(t, s, lines[1..], first, second);
      RewrittenLine(t, s, lines[0], first);
      SteadyConcat(t, s, out, rest, second);
      SteadyFromSection(t, section, s, out + rest, lines[0], first, second);
    }
  }

  lemma SteadyFromSection(t: Table, section: string, s: string, lines: seq<string>, head: string,
                          first: seq<Plan>, second: seq<Plan>)
    requires s == NextSection(section, head)
    requires s == section || (lines != [] && lines[0] == head)
    ensures Steady(t, section, lines, second) <==> Steady(t, s, lines, second)
  {
  }

  // What is appended are edits of the plan, under their homes.
  ghost predicate DrawnAt(p: Plan, plan: seq<Plan>) {
    exists i :: 0 <= i < |plan| && plan[i].edit == p.edit && Same(plan[i].home, p.home)
  }

  ghost predicate DrawnFrom(ends: seq<Plan>, plan: seq<Plan>) {
    forall j :: 0 <= j < |ends| ==> DrawnAt(ends[j], plan)
  }

  lemma {:induction false} GroupIsSteady(t: Table, ends: seq<Plan>, home: string, name: string, plan: seq<Plan>)
    requires ValidTable(t) && Sound(t, plan) && Same(home, name)
    requires DrawnFrom(ends, plan)
    requires forall i :: 0 <= i < |ends| ==> ends[i].edit.value.Some?
    ensures Steady(t, name, Group(ends, home), plan)
  {
    if ends != [] {
      GroupIsSteady(t, ends[1..], home, name, plan);
      var rest := Group(ends[1..], home);
      if ends[0].home == home {
        var i :| 0 <= i < |plan| && plan[i].edit == ends[0].edit && Same(plan[i].home, ends[0].home);
        FormatIsSteady(t, name, plan, i);
        var line := Format(ends[0].edit.key, ends[0].edit.value.value);
        SingleLine(t, name, line);
        SteadyConcat(t, name, [line], rest, plan);
      } else {
        assert [] + rest == rest;
      }
    }
  }

  lemma OpeningIsSteady(t: Table, section: string, lines: seq<string>, home: string, plan: seq<Plan>)
    requires Plain(home)
    ensures Steady(t, section, Opening(lines, home), plan)
  {
    ClassifySectionLine(home);
    var line, empty: string := "[" + home + "]", "";
    assert Classify(empty) == Other;
    assert [line][1..] == [] && [empty][1..] == [];
    assert forall s :: Steady(t, s, [line], plan);
    assert Steady(t, section, [empty], plan);
    SteadyConcat(t, section, [empty], [line], plan);
    assert Opening(lines, home) == [line] || Opening(lines, home) == [empty] + [line];
  }

  lemma AppendGroupIsSteady(t: Table, lines: seq<string>, home: string, group: seq<string>, plan: seq<Plan>)
    requires Plain(home) && Steady(t, "", lines, plan)
    requires Steady(t, NewHome(lines, home), group, plan)
    requires SectionAfter(NewHome(lines, home), group) == NewHome(lines, home)
    ensures Steady(t, "", AppendGroup(lines, home, group), plan)
  {
    hide Steady, Entries, Classify, HeaderNames, SectionAfter;
    FirstHeaderIsNewHome(lines, home);
    var name := NewHome(lines, home);
    if FirstHeader(lines, home).Some? {
      var at := InsertionPoint(lines, home);
      var head, tail := lines[..at], lines[at..];
      assert lines == head + tail;
      SteadyConcat(t, "", head, tail, plan);
      SteadyConcat(t, "", head + group, tail, plan);
      SteadyConcat(t, "", head, group, plan);
      SectionAfterConcat("", head, group);
    } else {
      var opening := Opening(lines, home);
      OpeningIsHeader(t, SectionAfter("", lines), lines, home);
      OpeningIsSteady(t, SectionAfter("", lines), lines, home, plan);
      SteadyConcat(t, "", lines + opening, group, plan);
      SteadyConcat(t, "", lines, opening, plan);
      SectionAfterConcat("", lines, opening);
    }
  }

  lemma {:induction false} AppendAllIsSteady(t: Table, lines: seq<string>, ends: seq<Plan>, homes: seq<string>, plan: seq<Plan>)
    requires ValidTable(t) && Sound(t, plan) && Settable(t, ends) && HomesOf(ends, homes)
    requires DrawnFrom(ends, plan)
    requires Steady(t, "", lines, plan)
    ensures Steady(t, "", AppendAll(lines, ends, homes), plan)
    decreases homes
  {
    if homes != [] {
      var n := |homes| - 1;
      var home, sofar := homes[n], AppendAll(lines, ends, homes[..n]);
      HomesPrefix(ends, homes);
      AppendAllIsSteady(t, lines, ends, homes[..n], plan);
      var j :| 0 <= j < |ends| && ends[j].home == home;
      FirstNameIsSame(HeaderNames(sofar), home);
      GroupIsSteady(t, ends, home, NewHome(sofar, home), plan);
      EntriesOfGroup(t, ends, home, NewHome(sofar, home));
      AppendGroupIsSteady(t, sofar, home, Group(ends, home), plan);
    }
  }

  lemma EndsAreDrawn(first: seq<Plan>, second: seq<Plan>, ends: seq<Plan>)
    requires Again(first, second)
    requires forall p :: p in ends ==> p in first && p.edit.value.Some?
    ensures DrawnFrom(ends, second)
  {
    forall j | 0 <= j < |ends|
      ensures DrawnAt(ends[j], second)
    {
      assert ends[j] in ends;
      var i :| 0 <= i < |first| && first[i] == ends[j];
      assert second[i].edit == ends[j].edit;
    }
  }

  // ---- Saving twice -----------------------------------------------------------------------

  lemma SavedIsSteady(t: Table, lines: seq<string>, first: seq<Plan>, second: seq<Plan>)
    requires ValidTable(t) && Sound(t, first) && Sound(t, second) && Again(first, second)
    requires Targeted(t, Entries(t, "", lines), first) && RemovesAll(Entries(t, "", lines), first)
    ensures Steady(t, "", Apply(t, lines, first), second)
  {
    var ends := Ends(t, lines, first);
    EndsAreMissing(t, lines, first);
    FirstPassIsSteady(t, "", lines, first, second);
    EndsAreDrawn(first, second, ends);
    AppendAllIsSteady(t, Rewrite(t, "", lines, first), ends, Homes(ends), second);
  }

  /** Saving twice is saving once, line for line, exactly when no removed key
      has a copy in the other section: otherwise the second save moves on to
      that copy. */
  lemma SavingTwice(t: Table, lines: seq<string>, first: seq<Plan>, second: seq<Plan>)
    requires ValidTable(t) && Sound(t, first) && Targeted(t, Entries(t, "", lines), first)
    requires Targeted(t, Entries(t, "", Apply(t, lines, first)), second)
    requires |first| == |second| && forall i :: 0 <= i < |first| ==> first[i].edit == second[i].edit
    ensures Apply(t, Apply(t, lines, first), second) == Apply(t, lines, first) <==>
            RemovesAll(Entries(t, "", lines), first)
  {
    var once := Apply(t, lines, first);
    SecondIsAgain(t, lines, first, second);
    if RemovesAll(Entries(t, "", lines), first) {
      SavedIsSteady(t, lines, first, second);
      SteadyIsUnchanged(t, "", once, second);
    } else {
      var i, e :| 0 <= i < |first| && first[i].edit.value.None? && e in Entries(t, "", lines)
                  && Same(e.key, first[i].edit.key) && !Same(e.section, first[i].home);
      SecondSaveMovesOn(t, lines, first, second, i, e);
    }
  }

  lemma SecondSaveMovesOn(t: Table, lines: seq<string>, first: seq<Plan>, second: seq<Plan>, i: nat, e: Entry)
    requires ValidTable(t) && Sound(t, first) && Targeted(t, Entries(t, "", lines), first)
    requires Sound(t, second) && Targeted(t, Entries(t, "", Apply(t, lines, first)), second)
    requires i < |first| == |second| && first[i].edit == second[i].edit && first[i].edit.value.None?
    requires e in Entries(t, "", lines) && Same(e.key, first[i].edit.key) && !Same(e.section, first[i].home)
    ensures Apply(t, Apply(t, lines, first), second) != Apply(t, lines, first)
  {
    SecondSaveReadsLess(t, lines, first, second, i, e, Apply(t, lines, first));
  }

  // What moves on is the reading, so it shows in any lines that read like the ones
  // the first save left.
  lemma SecondSaveReadsLess(t: Table, lines: seq<string>, first: seq<Plan>, second: seq<Plan>, i: nat, e: Entry, once: seq<string>)
    requires ValidTable(t) && Sound(t, first) && Targeted(t, Entries(t, "", lines), first)
    requires Entries(t, "", once) == Entries(t, "", Apply(t, lines, first))
    requires Sound(t, second) && Targeted(t, Entries(t, "", once), second)
    requires i < |first| == |second| && first[i].edit == second[i].edit && first[i].edit.value.None?
    requires e in Entries(t, "", lines) && Same(e.key, first[i].edit.key) && !Same(e.section, first[i].home)
    ensures Read(t, Apply(t, once, second)) != Read(t, once)
  {
    hide Apply, Entries;
    var es, key := Entries(t, "", lines), first[i].edit.key;
    MapIsGet(es, e.section, e.key);
    GetFound(es, e.section, e.key);
    ElsewhereIsKept(t, lines, first, i);
    var c := (e.section, e.key);
    assert c in Read(t, once);
    KeysArePresence(Entries(t, "", once), key);
    PlaceIsPresent(t, once, key);
    assert Anywhere(Entries(t, "", once), key);
    PutGet(t, once, second, i);
    KeysArePresence(Entries(t, "", Apply(t, once, second)), key);
  }

  // ---- Saving twice, to the letter ------------------------------------------------------------

  predicate NoStrayCr(line: string) {
    StripCr(line) == line
  }

  lemma PlainEndsSplit(first: string, tail: string)
    requires PlainEnds(first + ['\n'] + tail)
    ensures StripCr(first) == first && PlainEnds(tail)
  {
    var text := first + ['\n'] + tail;
    assert text[|first|] == '\n' && (first != [] ==> text[|first| - 1] == first[|first| - 1]);
    forall i | 0 < i < |tail| && tail[i] == '\n'
      ensures tail[i - 1] != '\r'
    {
      assert text[|first| + 1 + i] == '\n' && text[|first| + i] == tail[i - 1];
    }
  }

  // A text without carriage returns before its newlines is its lines again.
  lemma {:induction false} TextOfLines(text: string)
    requires PlainEnds(text)
    ensures Join(Lines(text)) + (if EndsLine(text) then "\n" else "") == text
    decreases |text|
  {
    if text != [] {
      hide StripCr, PlainEnds, Join, EndsLine, Lines;
      SplitOnceNone(text, '\n');
      match SplitOnce(text, '\n') {
        case None => TextOfLastLine(text);
        case Some(p) =>
          assert text == p.0 + ['\n'] + p.1;
          PlainEndsSplit(p.0, p.1);
          TextOfLines(p.1);
          TextOfFirstLine(text, p.0, p.1);
      }
    } else {
      assert Join(Lines(text)) == text && !EndsLine(text);
    }
  }

  lemma TextOfLastLine(text: string)
    requires text != [] && SplitOnce(text, '\n').None?
    ensures Join(Lines(text)) + (if EndsLine(text) then "\n" else "") == text
  {
    SplitOnceNone(text, '\n');
    assert Lines(text) == [text] && text + [] == text;
  }

  lemma TextOfFirstLine(text: string, first: string, tail: string)
    requires SplitOnce(text, '\n') == Some((first, tail)) && text == first + ['\n'] + tail && StripCr(first) == first
    requires Join(Lines(tail)) + (if EndsLine(tail) then "\n" else "") == tail
    ensures Join(Lines(text)) + (if EndsLine(text) then "\n" else "") == text
  {
    hide StripCr, SplitOnce;
    var rest := Lines(tail);
    assert Lines(text) == [first] + rest;
    assert ([first] + rest)[1..] == rest;
    if tail == [] {
      assert rest == [] && [first] + rest == [first];
      assert text[|first|] == '\n';
    } else {
      assert rest != [];
      assert text[|text| - 1] == tail[|tail| - 1];
      hide Lines;
      assert Join([first] + rest) == first + "\n" + Join(rest);
    }
  }

  // No newline in the text has a carriage return right before it.
  predicate PlainEnds(text: string) {
    forall i :: 0 < i < |text| && text[i] == '\n' ==> text[i - 1] != '\r'
  }

  lemma PlainEndsGlue(first: string, tail: string)
    requires OneLine(first) && NoStrayCr(first) && PlainEnds(tail)
    ensures PlainEnds(first + ['\n'] + tail)
    ensures PlainEnds(first + ['\n']) && PlainEnds(first)
  {
    var text, n := first + ['\n'] + tail, |first|;
    assert n > 0 ==> first[n - 1] != '\r';
    forall i | 0 < i < |text| && text[i] == '\n'
      ensures text[i - 1] != '\r'
    {
      if i > n + 1 {
        assert text[i] == tail[i - n - 1] && text[i - 1] == tail[i - n - 2];
      }
    }
  }

  lemma {:induction false} JoinHasNoCrLf(lines: seq<string>, ending: string)
    requires OneLiners(lines) && (ending == "" || ending == "\n") && AllGood(lines, NoStrayCr)
    ensures PlainEnds(Join(lines) + ending)
    decreases |lines|
  {
    if lines != [] {
      var first, rest := lines[0], lines[1..];
      assert first in lines && NoStrayCr(first) && OneLine(first);
      assert forall l :: l in rest ==> l in lines;
      JoinHasNoCrLf(rest, ending);
      PlainEndsGlue(first, Join(rest) + ending);
      if rest == [] {
        assert lines == [first];
        assert Join(lines) + ending == first || Join(lines) + ending == first + ['\n'];
      } else {
        assert Join(lines) + ending == first + ['\n'] + (Join(rest) + ending);
      }
    }
  }

  // The lines read back from a steady file are steady.
  lemma {:induction false} SteadyText(t: Table, section: string, lines: seq<string>, ending: string, plan: seq<Plan>)
    requires OneLiners(lines) && (ending == "" || ending == "\n") && AllGood(lines, NoStrayCr)
    requires Steady(t, section, lines, plan)
    ensures Steady(t, section, Lines(Join(lines) + ending), plan)
    decreases |lines|
  {
    if lines == [] {
      EmptyIsSteady(t, section, ending, plan);
    } else {
      var first, rest := lines[0], lines[1..];
      assert first in lines && NoStrayCr(first) && OneLine(first);
      assert forall l :: l in rest ==> l in lines;
      if rest == [] {
        assert lines == [first];
        LastIsSteady(t, section, first, ending, plan);
      } else {
        FirstLine(lines, ending);
        SteadyText(t, NextSection(section, first), rest, ending, plan);
        var tail := Lines(Join(rest) + ending);
        assert ([first] + tail)[1..] == tail;
      }
    }
  }

  lemma EmptyIsSteady(t: Table, section: string, ending: string, plan: seq<Plan>)
    requires ending == "" || ending == "\n"
    ensures Steady(t, section, Lines([] + ending), plan)
  {
    var empty: string := [];
    assert Classify(empty) == Other;
    if ending == "\n" {
      SplitOnceAt([], [], '\n');
      assert [] + ['\n'] + [] == [] + ending;
      assert Lines([] + ending) == [empty];
      assert [empty][1..] == [];
    } else {
      assert empty + ending == [];
    }
  }

  lemma LastIsSteady(t: Table, section: string, line: string, ending: string, plan: seq<Plan>)
    requires OneLine(line) && NoStrayCr(line) && (ending == "" || ending == "\n")
    requires Steady(t, section, [line], plan)
    ensures Steady(t, section, Lines(line + ending), plan)
  {
    if ending == "\n" {
      SplitOnceAt(line, [], '\n');
      assert line + ['\n'] + [] == line + ending;
      assert Lines(line + ending) == [line];
    } else if line == [] {
      assert line + ending == [];
    } else {
      SplitOnceNone(line, '\n');
      assert line + ending == line;
      assert Lines(line) == [line];
    }
  }

  /** Saving the same edits again changes nothing at all in the file, when no
      removed key has a copy in the other section and no line or value ends in
      a carriage return (the editor turns line ends into plain newlines). */
  lemma SavingTwiceSameText(t: Table, raw: string, edits: seq<Edit>, order: seq<EntryKey>, again: seq<EntryKey>)
    requires ValidTable(t) && GoodEdits(t, edits)
    requires forall c :: c in order <==> c in Read(t, Lines(raw))
    requires forall c :: c in again <==> c in Read(t, Lines(Edited(t, raw, Planned(t, order, edits))))
    requires AllGood(Lines(raw), NoStrayCr)
    requires forall i :: 0 <= i < |edits| && edits[i].value.Some? ==> NoStrayCr(edits[i].value.value)
    requires RemovesAll(Entries(t, "", Lines(raw)), Planned(t, order, edits))
    ensures var once := Edited(t, raw, Planned(t, order, edits));
            Edited(t, once, Planned(t, again, edits)) == once
  {
    hide Apply, Entries, Read, RemovesAll, Join;
    var first, second := Planned(t, order, edits), Planned(t, again, edits);
    var once := Edited(t, raw, first);
    GoodPlan(t, raw, edits, order);
    GoodPlan(t, once, edits, again);
    SavedPlansMatch(t, raw, first, second);
    var lines := Apply(t, Lines(raw), first);
    var ending := EditedIsJoined(t, raw, first);
    LinesAreOneLiners(raw);
    ApplyIsOneLiners(t, Lines(raw), first);
    ApplyHasNoStrayCr(t, Lines(raw), first);
    SteadyTextIsFixed(t, lines, ending, second);
  }

  lemma SavedPlansMatch(t: Table, raw: string, first: seq<Plan>, second: seq<Plan>)
    requires ValidTable(t) && Sound(t, first) && Targeted(t, Entries(t, "", Lines(raw)), first)
    requires Targeted(t, Entries(t, "", Lines(Edited(t, raw, first))), second)
    requires |first| == |second| && forall i :: 0 <= i < |first| ==> first[i].edit == second[i].edit
    requires SingleLineValues(first) && RemovesAll(Entries(t, "", Lines(raw)), first)
    ensures var lines := Apply(t, Lines(raw), first);
            Sound(t, second) && Targeted(t, Entries(t, "", lines), second)
            && Steady(t, "", lines, second) && Ends(t, lines, second) == []
  {
    var ending := EditedIsJoined(t, raw, first);
    LinesAreOneLiners(raw);
    ApplyIsOneLiners(t, Lines(raw), first);
    EntriesOfText(t, "", Apply(t, Lines(raw), first), ending);
    SecondIsAgain(t, Lines(raw), first, second);
    SavedIsSteady(t, Lines(raw), first, second);
  }

  lemma SteadyTextIsFixed(t: Table, lines: seq<string>, ending: string, plan: seq<Plan>)
    requires ValidTable(t) && Sound(t, plan) && Targeted(t, Entries(t, "", lines), plan)
    requires OneLiners(lines) && AllGood(lines, NoStrayCr) && (ending == "" || ending == "\n")
    requires Steady(t, "", lines, plan) && Ends(t, lines, plan) == []
    ensures Edited(t, Join(lines) + ending, plan) == Join(lines) + ending
  {
    var text := Join(lines) + ending;
    EntriesOfText(t, "", lines, ending);
    SteadyText(t, "", lines, ending, plan);
    SteadyIsUnchanged(t, "", Lines(text), plan);
    NothingLeftToAdd(t, lines, Lines(text), plan);
    assert Apply(t, Lines(text), plan) == Lines(text);
    JoinHasNoCrLf(lines, ending);
    TextOfLines(text);
  }

  lemma ApplyHasNoStrayCr(t: Table, lines: seq<string>, plan: seq<Plan>)
    requires ValidTable(t) && Sound(t, plan) && Targeted(t, Entries(t, "", lines), plan)
    requires AllGood(lines, NoStrayCr)
    requires forall i :: 0 <= i < |plan| && plan[i].edit.value.Some? ==> NoStrayCr(plan[i].edit.value.value)
    ensures AllGood(Apply(t, lines, plan), NoStrayCr)
  {
    forall i | 0 <= i < |plan| && plan[i].edit.value.Some?
      ensures NoStrayCr(Format(plan[i].edit.key, plan[i].edit.value.value))
    {
      var line, value := Format(plan[i].edit.key, plan[i].edit.value.value), plan[i].edit.value.value;
      assert line[|line| - 1] == (if value == [] then '=' else value[|value| - 1]);
    }
    ApplyKeeps(t, lines, plan, NoStrayCr);
  }

  // What is missing depends only on the entries.
  lemma NothingLeftToAdd(t: Table, a: seq<string>, b: seq<string>, plan: seq<Plan>)
    requires ValidTable(t) && Sound(t, plan) && Targeted(t, Entries(t, "", a), plan)
    requires Entries(t, "", a) == Entries(t, "", b) && Ends(t, a, plan) == []
    ensures Ends(t, b, plan) == []
  {
    var ends := Ends(t, b, plan);
    assert ends != [] ==> ends[0] in ends;
    EndsAreMissing(t, a, plan);
    EndsAreMissing(t, b, plan);
    assert forall i :: 0 <= i < |plan| ==> plan[i] !in ends;
  }
}
