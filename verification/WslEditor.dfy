/** The reader and the editor as the shell runs them: loops over the lines
    that carry the current section, proved against WslConfig. */
module WslEditor {
  import opened Wrappers
  import opened Text
  import opened WslConfig
  import opened WslLines

  lemma AsMapGrows(es: seq<Entry>, e: Entry)
    ensures AsMap(es + [e]) == AsMap(es)[(e.section, e.key) := e.value]
  {
    assert (es + [e])[..|es|] == es;
  }

  method ParseOwned(t: Table, raw: string) returns (out: map<EntryKey, string>)
    requires ValidTable(t)
    ensures out == Read(t, Lines(raw))
  {
    var lines := Lines(raw);
    assert AsMap(Entries(t, "", lines[..0])) == map[];
    hide Classify, Trim, SplitKv, HeaderName, IsHeader, Lines, Lower, Entries, AsMap, Owned, InOwned;
    var section := "";
    out := map[];
    var i := 0;
    while i < |lines|
      invariant 0 <= i <= |lines|
      invariant section == SectionAfter("", lines[..i])
      invariant out == AsMap(Entries(t, "", lines[..i]))
    {
      OneMoreLine(t, lines, i, []);
      LineCases(lines[i]);
      ghost var before := Entries(t, "", lines[..i]);
      assert before + [] == before;
      var trimmed := Trim(lines[i]);
      if IsHeader(trimmed) {
        section := HeaderName(trimmed);
      } else if section == "" || !InOwned(t, section) {
        EmptySectionIsNotOwned(t);
      } else {
        var kv := SplitKv(trimmed);
        if kv.Some? && Owned(t, kv.value.0) {
          out := out[(section, kv.value.0) := kv.value.1];
          AsMapGrows(before, Entry(section, kv.value.0, kv.value.1));
        }
      }
      i := i + 1;
    }
    assert lines[..|lines|] == lines;
  }

  method FindTarget(t: Table, order: seq<EntryKey>, key: string) returns (home: string)
    ensures home == Target(t, order, key)
  {
    var documented := Documented(t, key);
    var found: Option<EntryKey> := None;
    var i := 0;
    while i < |order|
      invariant 0 <= i <= |order|
      invariant FirstCopyIn(order, key, documented) == FirstCopyIn(order[i..], key, documented)
      invariant FirstCopy(order, key) == if found.Some? then found else FirstCopy(order[i..], key)
    {
      assert order[i..][1..] == order[i + 1..];
      if Same(order[i].1, key) {
        if Same(order[i].0, documented) {
          return order[i].0;
        }
        if found.None? {
          found := Some(order[i]);
        }
      }
      i := i + 1;
    }
    home := if found.Some? then found.value.0 else documented;
  }

  /** First pass: replace or drop the lines an edit is aimed at, and remember
      which edits found one. */
  method RewriteLines(t: Table, lines: seq<string>, plan: seq<Plan>)
    returns (out: seq<string>, seen: set<EntryKey>)
    requires ValidTable(t)
    ensures out == Rewrite(t, "", lines, plan)
    ensures seen == Marks(t, "", lines, plan)
  {
    assert Rewrite(t, "", lines[..0], plan) == [] && Marks(t, "", lines[..0], plan) == {};
    hide Classify, Trim, SplitKv, HeaderName, IsHeader, InOwned, EditAt, Rewrite, Marks;
    var section := "";
    out, seen := [], {};
    var i := 0;
    while i < |lines|
      invariant 0 <= i <= |lines|
      invariant section == SectionAfter("", lines[..i])
      invariant out == Rewrite(t, "", lines[..i], plan)
      invariant seen == Marks(t, "", lines[..i], plan)
    {
      OneMoreLine(t, lines, i, plan);
      LineCases(lines[i]);
      var trimmed := Trim(lines[i]);
      if IsHeader(trimmed) {
        section := HeaderName(trimmed);
      }
      EditAtIsFind(t, section, lines[i], plan);
      var hit := None;
      if InOwned(t, section) {
        var kv := SplitKv(trimmed);
        if kv.Some? {
          hit := Find(plan, section, kv.value.0);
        }
      }
      if hit.Some? {
        var e := plan[hit.value].edit;
        seen := seen + {(e.section, e.key)};
        if e.value.Some? {
          out := out + [Format(e.key, e.value.value)];
        }
      } else {
        out := out + [lines[i]];
      }
      i := i + 1;
    }
    assert lines[..|lines|] == lines;
  }

  /** The edits with a value that no line of the file answered to. */
  method CollectMissing(plan: seq<Plan>, seen: set<EntryKey>) returns (ends: seq<Plan>)
    ensures ends == Missing(plan, seen)
  {
    ends := [];
    var i := 0;
    while i < |plan|
      invariant 0 <= i <= |plan|
      invariant ends == Missing(plan[..i], seen)
    {
      assert plan[..i + 1][..i] == plan[..i];
      var e := plan[i].edit;
      if (e.section, e.key) !in seen && e.key != "" && e.value.Some? {
        ends := ends + [plan[i]];
      }
      i := i + 1;
    }
    assert plan[..|plan|] == plan;
  }

  // One past the last non-blank line of the block under the header at start.
  method FindBlockEnd(lines: seq<string>, start: nat) returns (at: nat)
    requires start < |lines|
    ensures at == BlockEnd(lines, start + 1, start + 1)
  {
    hide Classify, Trim, SplitKv, HeaderName, IsHeader;
    at := start + 1;
    var i := start + 1;
    while i < |lines|
      invariant start + 1 <= at <= i <= |lines|
      invariant BlockEnd(lines, start + 1, start + 1) == BlockEnd(lines, i, at)
    {
      LineCases(lines[i]);
      var trimmed := Trim(lines[i]);
      if IsHeader(trimmed) {
        return;
      }
      if trimmed != [] {
        at := i + 1;
      }
      i := i + 1;
    }
  }

  method InsertAt(lines: seq<string>, at: nat, keys: seq<string>) returns (result: seq<string>)
    requires at <= |lines|
    ensures result == lines[..at] + keys + lines[at..]
  {
    result := lines;
    for n := 0 to |keys|
      invariant result == lines[..at] + keys[..n] + lines[at..]
    {
      result := result[..at + n] + [keys[n]] + result[at + n..];
    }
    assert keys[..|keys|] == keys;
  }

  /** Appends one home's keys: after the last non-blank line of its first
      block, or in a new section at the end of the file. */
  method AppendKeys(lines: seq<string>, home: string, keys: seq<string>) returns (result: seq<string>)
    ensures result == AppendGroup(lines, home, keys)
  {
    var position := FirstHeader(lines, home);
    if position.Some? {
      var at := FindBlockEnd(lines, position.value);
      result := InsertAt(lines, at, keys);
    } else {
      result := lines;
      if result != [] && Trim(result[|result| - 1]) != [] {
        result := result + [""];
      }
      result := result + ["[" + home + "]"];
      assert result == lines + Opening(lines, home);
      for n := 0 to |keys|
        invariant result == lines + Opening(lines, home) + keys[..n]
      {
        result := result + [keys[n]];
      }
      assert keys[..|keys|] == keys;
    }
  }

  lemma NothingAppended(lines: seq<string>, ends: seq<Plan>)
    requires forall i :: 0 <= i < |ends| ==> ends[i].edit.value.Some?
    ensures Homes(ends[..0]) == [] && AppendAll(lines, ends, []) == lines
  {
  }

  lemma OneMoreHome(lines: seq<string>, ends: seq<Plan>, i: nat)
    requires forall i :: 0 <= i < |ends| ==> ends[i].edit.value.Some?
    requires i < |ends|
    ensures var done, home := Homes(ends[..i]), ends[i].home;
            && Homes(ends[..i + 1]) == (if home in done then done else done + [home])
            && AppendAll(lines, ends, done + [home]) == AppendGroup(AppendAll(lines, ends, done), home, Group(ends, home))
  {
    hide AppendGroup, Group;
    assert ends[..i + 1][..i] == ends[..i];
    var done := Homes(ends[..i]);
    assert (done + [ends[i].home])[..|done|] == done;
  }

  method EditLines(t: Table, lines: seq<string>, plan: seq<Plan>) returns (result: seq<string>)
    requires ValidTable(t)
    ensures result == Apply(t, lines, plan)
  {
    hide AppendAll, AppendGroup, Group, Homes, Rewrite, Marks, Missing;
    var out, seen := RewriteLines(t, lines, plan);
    var ends := CollectMissing(plan, seen);
    assert ends == Ends(t, lines, plan);
    result := out;
    var done: seq<string> := [];
    NothingAppended(out, ends);
    var i := 0;
    while i < |ends|
      invariant 0 <= i <= |ends|
      invariant done == Homes(ends[..i])
      invariant result == AppendAll(out, ends, done)
    {
      OneMoreHome(out, ends, i);
      if ends[i].home !in done {
        result := AppendKeys(result, ends[i].home, Group(ends, ends[i].home));
        done := done + [ends[i].home];
      }
      i := i + 1;
    }
    assert ends[..|ends|] == ends;
  }

  // The text an edit leaves, given the text it started from.
  function Edited(t: Table, raw: string, plan: seq<Plan>): string {
    var text := Join(Apply(t, Lines(raw), plan));
    if EndsLine(raw) || (raw == "" && text != "") then text + "\n" else text
  }

  /** `order` lists the present keys the way the map is walked. */
  method Edit(t: Table, raw: string, edits: seq<Edit>, order: seq<EntryKey>) returns (result: string)
    requires ValidTable(t)
    requires forall k :: k in order <==> k in Read(t, Lines(raw))
    ensures result == Edited(t, raw, Planned(t, order, edits))
  {
    var plan: seq<Plan> := [];
    var i := 0;
    while i < |edits|
      invariant 0 <= i <= |edits|
      invariant plan == Planned(t, order, edits)[..i]
    {
      var home := FindTarget(t, order, edits[i].key);
      plan := plan + [Plan(edits[i], home)];
      i := i + 1;
    }
    assert Planned(t, order, edits)[..|edits|] == Planned(t, order, edits);
    var lines := EditLines(t, Lines(raw), plan);
    result := Join(lines);
    if EndsLine(raw) || (raw == "" && result != "") {
      result := result + "\n";
    }
  }
}
