/** What single lines and concatenations of lines mean to the reader and to
    the rewriter. */
module WslLines {
  import opened Wrappers
  import opened Text
  import opened WslConfig

  // ---- Lines the editor writes -----------------------------------------------

  // A written assignment reads back as the key and the trimmed value.
  lemma ClassifyFormat(key: string, value: string)
    requires Plain(key)
    ensures Classify(Format(key, value)) == Pair(key, Trim(value))
  {
    var line, p := Format(key, value), key + "=";
    assert line == p + value;
    assert TrimStart(line) == line by { assert line[0] == key[0]; }
    TrimEndAppend(p, value);
    var s := Trim(line);
    assert s == p + TrimEnd(value) == key + ['='] + TrimEnd(value);
    assert s[0] == key[0];
    SplitOnceAt(key, TrimEnd(value), '=');
    TrimPlain(key);
    TrimOfTrimEnd(value);
  }

  lemma ClassifySectionLine(name: string)
    requires Plain(name)
    ensures Classify("[" + name + "]") == Header(name)
  {
    var line := "[" + name + "]";
    assert forall i :: 0 <= i < |line| ==> !IsSpace(line[i]);
    TrimPlain(line);
    assert line[1..|line| - 1] == name;
    TrimPlain(name);
  }

  // A header of one of the table's sections never holds an assignment.
  lemma OwnedHeaderHasNoKey(t: Table, trimmed: string)
    requires ValidTable(t) && IsHeader(trimmed) && InOwned(t, HeaderName(trimmed))
    ensures SplitKv(trimmed).None?
  {
    var inner := trimmed[1..|trimmed| - 1];
    if '=' in trimmed {
      var i :| 0 <= i < |trimmed| && trimmed[i] == '=';
      assert inner[i - 1] == '=';
      TrimKeeps(inner, '=');
      LowerKeeps(HeaderName(trimmed), '=');
    }
    SplitOnceNone(trimmed, '=');
  }

  // The code looks for an assignment even on a header line of an owned
  // section; it never finds one, so the edit it picks is the line's own.
  lemma EditAtIsFind(t: Table, section: string, line: string, plan: seq<Plan>)
    requires ValidTable(t) && NextSection(section, line) == section
    ensures EditAt(t, section, line, plan) ==
            (var kv := SplitKv(Trim(line));
             if InOwned(t, section) && kv.Some? then Find(plan, section, kv.value.0) else None)
  {
    if IsHeader(Trim(line)) && InOwned(t, section) {
      OwnedHeaderHasNoKey(t, Trim(line));
    }
  }

  lemma EmptySectionIsNotOwned(t: Table)
    requires ValidTable(t)
    ensures !InOwned(t, "")
  {
    assert Lower("") == "";
  }

  // The three ways a line can read, in the terms of the code's own tests.
  lemma LineCases(line: string)
    ensures IsHeader(Trim(line)) ==> Classify(line) == Header(HeaderName(Trim(line)))
    ensures !IsHeader(Trim(line)) ==>
              Classify(line) == (var kv := SplitKv(Trim(line)); if kv.Some? then Pair(kv.value.0, kv.value.1) else Other)
  {
  }

  // ---- Concatenation -----------------------------------------------------------

  lemma {:induction false} SectionAfterConcat(section: string, a: seq<string>, b: seq<string>)
    ensures SectionAfter(section, a + b) == SectionAfter(SectionAfter(section, a), b)
    decreases a
  {
    if a == [] {
      assert a + b == b;
    } else {
      assert (a + b)[1..] == a[1..] + b;
      SectionAfterConcat(NextSection(section, a[0]), a[1..], b);
    }
  }

  lemma {:induction false} EntriesConcat(t: Table, section: string, a: seq<string>, b: seq<string>)
    ensures Entries(t, section, a + b) == Entries(t, section, a) + Entries(t, SectionAfter(section, a), b)
    decreases a
  {
    if a == [] {
      assert a + b == b;
    } else {
      assert (a + b)[1..] == a[1..] + b;
      EntriesConcat(t, NextSection(section, a[0]), a[1..], b);
    }
  }

  lemma {:induction false} RewriteConcat(t: Table, section: string, a: seq<string>, b: seq<string>, plan: seq<Plan>)
    ensures Rewrite(t, section, a + b, plan) ==
            Rewrite(t, section, a, plan) + Rewrite(t, SectionAfter(section, a), b, plan)
    decreases a
  {
    if a == [] {
      assert a + b == b;
    } else {
      assert (a + b)[1..] == a[1..] + b;
      RewriteConcat(t, NextSection(section, a[0]), a[1..], b, plan);
    }
  }

  lemma {:induction false} MarksConcat(t: Table, section: string, a: seq<string>, b: seq<string>, plan: seq<Plan>)
    ensures Marks(t, section, a + b, plan) ==
            Marks(t, section, a, plan) + Marks(t, SectionAfter(section, a), b, plan)
    decreases a
  {
    if a == [] {
      assert a + b == b;
    } else {
      assert (a + b)[1..] == a[1..] + b;
      MarksConcat(t, NextSection(section, a[0]), a[1..], b, plan);
    }
  }

  lemma SingleLine(t: Table, section: string, line: string)
    ensures SectionAfter(section, [line]) == NextSection(section, line)
    ensures Entries(t, section, [line]) == EntryOf(t, NextSection(section, line), line)
  {
    assert [line][1..] == [];
    var s := NextSection(section, line);
    assert SectionAfter(s, []) == s;
    assert EntryOf(t, s, line) + [] == EntryOf(t, s, line);
  }

  // One more line, for loops that walk the file from the top.
  lemma OneMoreLine(t: Table, lines: seq<string>, i: nat, plan: seq<Plan>)
    requires i < |lines|
    ensures var before := lines[..i];
            var s := NextSection(SectionAfter("", before), lines[i]);
            && SectionAfter("", lines[..i + 1]) == s
            && Entries(t, "", lines[..i + 1]) == Entries(t, "", before) + EntryOf(t, s, lines[i])
            && Rewrite(t, "", lines[..i + 1], plan) == Rewrite(t, "", before, plan) + RewriteLine(t, s, lines[i], plan)
            && Marks(t, "", lines[..i + 1], plan) == Marks(t, "", before, plan) + MarkAt(t, s, lines[i], plan)
  {
    var before, last := lines[..i], [lines[i]];
    assert lines[..i + 1] == before + last;
    SectionAfterConcat("", before, last);
    EntriesConcat(t, "", before, last);
    RewriteConcat(t, "", before, last, plan);
    MarksConcat(t, "", before, last, plan);
    assert last[1..] == [];
  }
}
