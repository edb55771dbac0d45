/** Where an append puts its keys: at the end of what their section already says, and
    a section that has to be opened apart from what comes before it. */
module WslPlacement {
  import opened Wrappers
  import opened Text
  import opened WslConfig
  import opened WslLines
  import opened WslLaws
  import opened WslTheorems
  import opened WslEditor

  ghost predicate NoHeader(lines: seq<string>, from: nat, to: nat) {
    forall j :: from <= j < to && j < |lines| ==> !Classify(lines[j]).Header?
  }

  // The same, with the last line counted in.
  ghost predicate NoneThrough(lines: seq<string>, from: nat, last: nat) {
    NoHeader(lines, from, last + 1)
  }

  // From here to the next header, or the end, there are only blank lines.
  ghost predicate BlankToHeader(lines: seq<string>, from: nat) {
    forall j :: from <= j < |lines| && NoneThrough(lines, from, j) ==> Blank(lines[j])
  }

  ghost predicate Headerless(lines: seq<string>) {
    forall j :: 0 <= j < |lines| ==> !Classify(lines[j]).Header?
  }

  // The group stands at m, in the block of the first header of its home at k: right
  // under the header or after a line that is not blank, with nothing but blank lines
  // between it and the next header.
  ghost predicate StandsAt(lines: seq<string>, home: string, group: seq<string>, k: nat, m: nat) {
    && k < m && m + |group| <= |lines| && lines[m..m + |group|] == group
    && HeaderOf(lines[k], home) && (forall i :: 0 <= i < k ==> !HeaderOf(lines[i], home))
    && NoHeader(lines, k + 1, m)
    && (m == k + 1 || !Blank(lines[m - 1]))
    && BlankToHeader(lines, m + |group|)
  }

  // ---- One group ------------------------------------------------------------------------

  lemma {:induction false} BlockEndIs(lines: seq<string>, i: nat, at: nat)
    requires at <= i <= |lines|
    ensures var r := BlockEnd(lines, i, at);
            && (r == at || (i < r && !Blank(lines[r - 1])))
            && forall j :: i <= j < |lines| && r <= j && NoneThrough(lines, i, j) ==> Blank(lines[j])
    decreases |lines| - i
  {
    hide Classify, Blank;
    if i < |lines| && !Classify(lines[i]).Header? {
      var next := if Blank(lines[i]) then at else i + 1;
      BlockEndIs(lines, i + 1, next);
      var r := BlockEnd(lines, i, at);
      forall j | i <= j < |lines| && r <= j && NoneThrough(lines, i, j)
        ensures Blank(lines[j])
      {
        if i < j {
          assert NoneThrough(lines, i + 1, j);
        }
      }
    } else if i < |lines| {
      forall j | i <= j < |lines|
        ensures !NoneThrough(lines, i, j)
      {
        NotInside(lines, i, j + 1, i);
      }
    }
  }

  // A header is not among lines that have none.
  lemma NotInside(lines: seq<string>, from: nat, to: nat, k: nat)
    requires k < |lines| && Classify(lines[k]).Header?
    ensures NoHeader(lines, from, to) ==> !(from <= k < to)
  {
  }

  /** When the section exists, its keys go in as one piece, right under its first header
      or after a line of its block that is not blank, and what follows them in the
      block is blank. */
  lemma GroupLands(lines: seq<string>, home: string, group: seq<string>) returns (k: nat, at: nat)
    requires FirstHeader(lines, home).Some?
    ensures k < at <= |lines| && FirstHeader(lines, home) == Some(k)
    ensures AppendGroup(lines, home, group) == lines[..at] + group + lines[at..]
    ensures NoHeader(lines, k + 1, at) && (at == k + 1 || !Blank(lines[at - 1])) && BlankToHeader(lines, at)
  {
    hide Classify, Blank;
    k := FirstHeader(lines, home).value;
    at := BlockEnd(lines, k + 1, k + 1);
    BlockEndIs(lines, k + 1, k + 1);
    forall j | at <= j < |lines| && NoneThrough(lines, at, j)
      ensures Blank(lines[j])
    {
      assert NoneThrough(lines, k + 1, j);
    }
  }

  /** When it does not, it is opened at the end, after one blank line if the last line
      is not blank already, with its keys right under it. */
  lemma SectionOpens(lines: seq<string>, home: string, group: seq<string>)
    requires FirstHeader(lines, home).None?
    ensures var apart := if lines != [] && !Blank(lines[|lines| - 1]) then [""] else [];
            AppendGroup(lines, home, group) == lines + apart + ["[" + home + "]"] + group
  {
    hide Blank;
    var apart := if lines != [] && !Blank(lines[|lines| - 1]) then [""] else [];
    assert lines + (apart + ["[" + home + "]"]) + group == lines + apart + ["[" + home + "]"] + group;
  }

  lemma HeaderLine(home: string)
    requires Plain(home)
    ensures HeaderOf("[" + home + "]", home) && Classify("[" + home + "]").Header?
    ensures Blank("") && !Classify("").Header?
  {
    ClassifySectionLine(home);
    var empty: string := "";
    assert Classify(empty) == Other;
  }

  // Lines put in between.
  lemma Between(lines: seq<string>, at: nat, group: seq<string>, j: nat)
    requires at <= |lines| && j < |lines| + |group|
    ensures var r := lines[..at] + group + lines[at..];
            && (j < at ==> r[j] == lines[j])
            && (at <= j < at + |group| ==> r[j] == group[j - at])
            && (at + |group| <= j ==> r[j] == lines[j - |group|])
  {
  }

  lemma LandedStands(lines: seq<string>, home: string, group: seq<string>, k: nat, at: nat)
    requires k < at <= |lines| && FirstHeader(lines, home) == Some(k) && Headerless(group)
    requires NoHeader(lines, k + 1, at) && (at == k + 1 || !Blank(lines[at - 1])) && BlankToHeader(lines, at)
    ensures StandsAt(lines[..at] + group + lines[at..], home, group, k, at)
  {
    hide Classify, Blank, HeaderOf;
    var r := lines[..at] + group + lines[at..];
    assert r[at..at + |group|] == group;
    forall j | at + |group| <= j < |r| && NoneThrough(r, at + |group|, j)
      ensures Blank(r[j])
    {
      Between(lines, at, group, j);
      assert r[j] == lines[j - |group|];
      forall i | at <= i < j - |group| + 1 && i < |lines|
        ensures !Classify(lines[i]).Header?
      {
        assert r[i + |group|] == lines[i];
      }
    }
  }

  lemma EndOf(a: seq<string>, b: seq<string>)
    ensures (a + b)[|a|..|a| + |b|] == b
  {
  }

  lemma OpenedStands(lines: seq<string>, home: string, group: seq<string>, apart: seq<string>)
    requires Plain(home) && FirstHeader(lines, home).None? && Headerless(group) && (apart == [] || apart == [""])
    ensures StandsAt(lines + apart + ["[" + home + "]"] + group, home, group, |lines| + |apart|, |lines| + |apart| + 1)
  {
    HeaderLine(home);
    EmptyIsNoHeader(home);
    hide Classify, Blank, HeaderOf, Plain, Headerless, FirstHeader;
    var head, k := "[" + home + "]", |lines| + |apart|;
    EndStands(lines + apart, home, head, group) by {
      forall i | 0 <= i < k
        ensures !HeaderOf((lines + apart)[i], home)
      {
        assert (lines + apart)[i] == if i < |lines| then lines[i] else "";
      }
    }
  }

  lemma EndStands(front: seq<string>, home: string, head: string, group: seq<string>)
    requires HeaderOf(head, home) && forall i :: 0 <= i < |front| ==> !HeaderOf(front[i], home)
    ensures StandsAt(front + [head] + group, home, group, |front|, |front| + 1)
  {
    hide Classify, Blank, HeaderOf;
    var r, k := front + [head] + group, |front|;
    EndOf(front + [head], group);
    assert r[k] == head && forall i :: 0 <= i < k ==> r[i] == front[i];
  }

  lemma EmptyIsNoHeader(home: string)
    ensures !HeaderOf("", home)
  {
    var empty: string := "";
    assert Classify(empty) == Other;
  }

  lemma GroupStands(lines: seq<string>, home: string, group: seq<string>) returns (k: nat, m: nat)
    requires Plain(home) && Headerless(group)
    ensures StandsAt(AppendGroup(lines, home, group), home, group, k, m)
  {
    hide AppendGroup, StandsAt, Blank, Classify;
    if FirstHeader(lines, home).Some? {
      k, m := GroupLands(lines, home, group);
      LandedStands(lines, home, group, k, m);
    } else {
      var apart := if lines != [] && !Blank(lines[|lines| - 1]) then [""] else [];
      SectionOpens(lines, home, group);
      OpenedStands(lines, home, group, apart);
      k, m := |lines| + |apart|, |lines| + |apart| + 1;
    }
  }

  // ---- Groups of other sections --------------------------------------------------------------

  // A group put in elsewhere leaves one that stands where it stands.
  lemma StillStands(lines: seq<string>, home: string, group: seq<string>, k: nat, m: nat, at: nat, more: seq<string>)
    requires StandsAt(lines, home, group, k, m) && Headerless(group) && Headerless(more) && at <= |lines|
    requires at <= k || (m + |group| < at && !NoHeader(lines, m + |group|, at))
    ensures var d := if at <= k then |more| else 0;
            StandsAt(lines[..at] + more + lines[at..], home, group, k + d, m + d)
  {
    hide Classify, Blank;
    if at <= k {
      ShiftedStands(lines, home, group, k, m, at, more);
    } else {
      hide StandsAt, BlankToHeader;
      UnmovedStands(lines, home, group, k, m, at, more);
    }
  }

  lemma ShiftedStands(lines: seq<string>, home: string, group: seq<string>, k: nat, m: nat, at: nat, more: seq<string>)
    requires StandsAt(lines, home, group, k, m) && Headerless(more) && at <= k
    ensures StandsAt(lines[..at] + more + lines[at..], home, group, k + |more|, m + |more|)
  {
    hide Classify, Blank, HeaderOf;
    var r, d := lines[..at] + more + lines[at..], |more|;
    forall i | at <= i < |lines|
      ensures r[i + d] == lines[i]
    {
      Between(lines, at, more, i + d);
    }
    assert r[m + d..m + d + |group|] == lines[m..m + |group|];
    BlankAfterShift(lines, r, m + |group|, d);
    HeadersAfterShift(lines, home, k, at, more);
    forall i | k + d + 1 <= i < m + d
      ensures !Classify(r[i]).Header?
    {
      assert r[i] == lines[i - d];
    }
    hide BlankToHeader;
    assert r[m + d - 1] == lines[m - 1] && r[k + d] == lines[k];
  }

  lemma HeadersAfterShift(lines: seq<string>, home: string, k: nat, at: nat, more: seq<string>)
    requires at <= k <= |lines| && Headerless(more) && forall i :: 0 <= i < k ==> !HeaderOf(lines[i], home)
    ensures var r := lines[..at] + more + lines[at..]; forall i :: 0 <= i < k + |more| ==> !HeaderOf(r[i], home)
  {
    hide Classify;
    var r := lines[..at] + more + lines[at..];
    forall i | 0 <= i < k + |more|
      ensures !HeaderOf(r[i], home)
    {
      Between(lines, at, more, i);
    }
  }

  lemma BlankAfterShift(lines: seq<string>, r: seq<string>, from: nat, d: nat)
    requires BlankToHeader(lines, from) && |r| == |lines| + d && from <= |lines|
    requires forall i :: from <= i < |lines| ==> r[i + d] == lines[i]
    ensures BlankToHeader(r, from + d)
  {
    hide Classify, Blank;
    forall j | from + d <= j < |r| && NoneThrough(r, from + d, j)
      ensures Blank(r[j])
    {
      assert r[j] == lines[j - d];
      forall i | from <= i < j - d + 1 && i < |lines|
        ensures !Classify(lines[i]).Header?
      {
        assert r[i + d] == lines[i];
      }
    }
  }

  lemma UnmovedStands(lines: seq<string>, home: string, group: seq<string>, k: nat, m: nat, at: nat, more: seq<string>)
    requires StandsAt(lines, home, group, k, m) && at <= |lines|
    requires m + |group| < at && !NoHeader(lines, m + |group|, at)
    ensures StandsAt(lines[..at] + more + lines[at..], home, group, k, m)
  {
    hide Classify, Blank, HeaderOf;
    var r, from := lines[..at] + more + lines[at..], m + |group|;
    assert forall i :: 0 <= i < at ==> r[i] == lines[i];
    assert r[m..from] == lines[m..from];
    var h :| from <= h < at && h < |lines| && Classify(lines[h]).Header?;
    forall j | from <= j < |r| && NoneThrough(r, from, j)
      ensures Blank(r[j])
    {
      assert r[h] == lines[h];
      assert j < h;
      forall i | from <= i < j + 1 && i < |lines|
        ensures !Classify(lines[i]).Header?
      {
        assert r[i] == lines[i];
      }
    }
  }

  // A section opened at the end.
  lemma EndedStands(lines: seq<string>, home: string, group: seq<string>, k: nat, m: nat, apart: seq<string>, head: string, more: seq<string>)
    requires StandsAt(lines, home, group, k, m) && (apart == [] || apart == [""]) && Blank("") && Classify(head).Header?
    ensures StandsAt(lines + apart + [head] + more, home, group, k, m)
  {
    hide Classify, Blank, HeaderOf;
    var r, from := lines + apart + [head] + more, m + |group|;
    assert forall i :: 0 <= i < |lines| ==> r[i] == lines[i];
    assert r[m..from] == lines[m..from];
    var h := |lines| + |apart|;
    assert r[h] == head;
    forall j | from <= j < |r| && NoneThrough(r, from, j)
      ensures Blank(r[j])
    {
      assert j < h;
      if j < |lines| {
        forall i | from <= i < j + 1 && i < |lines|
          ensures !Classify(lines[i]).Header?
        {
          assert r[i] == lines[i];
        }
      } else {
        assert r[j] == "";
      }
    }
  }

  lemma OtherGroupStands(lines: seq<string>, home: string, group: seq<string>, k: nat, m: nat, other: string, more: seq<string>)
    returns (k': nat, m': nat)
    requires StandsAt(lines, home, group, k, m) && Headerless(group) && Headerless(more)
    requires Plain(other) && !Same(home, other)
    ensures StandsAt(AppendGroup(lines, other, more), home, group, k', m')
  {
    hide AppendGroup, Blank, Classify, BlankToHeader, Same;
    if FirstHeader(lines, other).Some? {
      var h, at := GroupLands(lines, other, more);
      ElsewhereLands(lines, home, group, k, m, other, h, at);
      StillStands(lines, home, group, k, m, at, more);
      k', m' := k + (if at <= k then |more| else 0), m + (if at <= k then |more| else 0);
    } else {
      var apart := if lines != [] && !Blank(lines[|lines| - 1]) then [""] else [];
      SectionOpens(lines, other, more);
      HeaderLine(other);
      EndedStands(lines, home, group, k, m, apart, "[" + other + "]", more);
      k', m' := k, m;
    }
  }

  lemma ElsewhereLands(lines: seq<string>, home: string, group: seq<string>, k: nat, m: nat, other: string, h: nat, at: nat)
    requires StandsAt(lines, home, group, k, m) && Headerless(group) && !Same(home, other)
    requires h < at <= |lines| && HeaderOf(lines[h], other) && NoHeader(lines, h + 1, at)
    ensures at <= k || (m + |group| < at && !NoHeader(lines, m + |group|, at))
  {
    hide Blank, BlankToHeader;
    NotInside(lines, h + 1, at, k);
    NotInside(lines, k + 1, m, h);
    assert forall i :: m <= i < m + |group| ==> lines[i] == lines[m..m + |group|][i - m];
    NotInside(lines, m + |group|, at, h);
  }

  // ---- The whole append ----------------------------------------------------------------------

  lemma {:induction false} GroupIsHeaderless(t: Table, ends: seq<Plan>, home: string)
    requires ValidTable(t) && OwnedKeys(t, ends)
    requires forall i :: 0 <= i < |ends| ==> ends[i].edit.value.Some?
    ensures Headerless(Group(ends, home))
  {
    if ends != [] {
      GroupIsHeaderless(t, ends[1..], home);
      OwnedIsPlain(t, ends[0].edit.key);
      ClassifyFormat(ends[0].edit.key, ends[0].edit.value.value);
      hide Classify, Format;
    }
  }

  ghost predicate Stands(lines: seq<string>, home: string, group: seq<string>) {
    exists k, m :: StandsAt(lines, home, group, k, m)
  }

  lemma {:induction false} AllStand(t: Table, lines: seq<string>, ends: seq<Plan>, homes: seq<string>, home: string)
    requires ValidTable(t) && Settable(t, ends) && HomesOf(ends, homes) && home in homes
    ensures Stands(AppendAll(lines, ends, homes), home, Group(ends, home))
    decreases homes
  {
    hide Group, AppendGroup, StandsAt, Headerless;
    var n := |homes| - 1;
    var last, sofar := homes[n], AppendAll(lines, ends, homes[..n]);
    HomesPrefix(ends, homes);
    HomeIsPlain(t, ends, homes, n);
    GroupIsHeaderless(t, ends, last);
    GroupIsHeaderless(t, ends, home);
    if home == last {
      var k, m := GroupStands(sofar, last, Group(ends, last));
    } else {
      var i :| 0 <= i < |homes| && homes[i] == home;
      assert home == homes[..n][i];
      AllStand(t, lines, ends, homes[..n], home);
      HomeIsPlain(t, ends, homes, i);
      assert Stands(sofar, home, Group(ends, home));
      var k, m :| StandsAt(sofar, home, Group(ends, home), k, m);
      var k', m' := OtherGroupStands(sofar, home, Group(ends, home), k, m, last, Group(ends, last));
    }
  }

  lemma HomeIsPlain(t: Table, ends: seq<Plan>, homes: seq<string>, i: nat)
    requires Settable(t, ends) && HomesOf(ends, homes) && i < |homes|
    ensures Plain(homes[i]) && Lower(homes[i]) == homes[i]
  {
    var home := homes[i];
    assert exists j :: 0 <= j < |ends| && ends[j].home == home;
    var j :| 0 <= j < |ends| && ends[j].home == home;
  }

  /** In the saved file every section's new keys stand together in its first block,
      after all it says, with nothing but blank lines before the next header. */
  lemma NewKeysStand(t: Table, lines: seq<string>, plan: seq<Plan>, home: string)
    requires ValidTable(t) && Sound(t, plan) && Targeted(t, Entries(t, "", lines), plan)
    requires home in Homes(Ends(t, lines, plan))
    ensures Stands(Apply(t, lines, plan), home, Group(Ends(t, lines, plan), home))
  {
    hide Stands, AppendAll, Rewrite;
    var ends := Ends(t, lines, plan);
    EndsAreMissing(t, lines, plan);
    AllStand(t, Rewrite(t, "", lines, plan), ends, Homes(ends), home);
  }

  /** A section's new keys are the missing ones that go there, each with its value, in
      the order they were asked for. */
  lemma {:induction false} GroupInOrder(a: seq<Plan>, p: Plan, home: string)
    requires (forall i :: 0 <= i < |a| ==> a[i].edit.value.Some?) && p.edit.value.Some?
    ensures Group(a + [p], home) ==
            Group(a, home) + if p.home == home then [p.edit.key + "=" + p.edit.value.value] else []
  {
    if a == [] {
      assert [] + [p] == [p] && [p][1..] == [];
    } else {
      assert (a + [p])[0] == a[0] && (a + [p])[1..] == a[1..] + [p];
      GroupInOrder(a[1..], p, home);
    }
  }

  /** The last newline stays: a text that ends in one still does, an empty one that
      gains lines gains one, and any other ends as its last line does. */
  lemma LastNewline(t: Table, raw: string, plan: seq<Plan>)
    ensures var text := Join(Apply(t, Lines(raw), plan));
            && (EndsLine(raw) ==> Edited(t, raw, plan) == text + "\n")
            && (raw == "" ==> Edited(t, raw, plan) == "" || Edited(t, raw, plan) == text + "\n")
            && (raw != "" && !EndsLine(raw) ==> Edited(t, raw, plan) == text)
  {
    hide Apply, Lines, Join;
  }
}
