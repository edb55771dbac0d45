/** The editor as a lens on the user's file: what is put is what is read,
    everything else reads as before, edits on distinct keys commute, and the
    lines of the file survive. */
module WslTheorems {
  import opened Wrappers
  import opened Text
  import opened WslConfig
  import opened WslLaws

  // ---- Where a key lands, whatever the order of the map -------------------------

  ghost predicate Anywhere(es: seq<Entry>, key: string) {
    exists j :: 0 <= j < |es| && Same(es[j].key, key)
  }

  function OtherSection(section: string): string {
    if section == WSL2 then EXPERIMENTAL else WSL2
  }

  // The documented section when the file has the key there or nowhere, else
  // the other one.
  ghost function Place(t: Table, es: seq<Entry>, key: string): string {
    var documented := Documented(t, key);
    if Present(es, documented, key) || !Anywhere(es, key) then documented else OtherSection(documented)
  }

  // A plan that follows the target rule on a file with these entries.
  ghost predicate Targeted(t: Table, es: seq<Entry>, plan: seq<Plan>) {
    forall i :: 0 <= i < |plan| ==>
      && Lower(plan[i].home) == Place(t, es, plan[i].edit.key)
      && (!Anywhere(es, plan[i].edit.key) ==> plan[i].home == Documented(t, plan[i].edit.key))
  }

  // Edits the shell sends: owned keys, each at most once.
  ghost predicate Sound(t: Table, plan: seq<Plan>) {
    OwnedKeys(t, plan) && DistinctKeys(plan)
  }

  lemma {:induction false} EntriesAreOwned(t: Table, section: string, lines: seq<string>)
    ensures forall e :: e in Entries(t, section, lines) ==> InOwned(t, e.section) && Owned(t, e.key)
    decreases lines
  {
    if lines != [] {
      EntriesAreOwned(t, NextSection(section, lines[0]), lines[1..]);
    }
  }

  // A key that is set is set in the section of its place.
  lemma PlaceIsPresent(t: Table, lines: seq<string>, key: string)
    requires ValidTable(t) && Owned(t, key)
    ensures var es := Entries(t, "", lines);
            && (Anywhere(es, key) <==> Present(es, Place(t, es, key), key))
            && Lower(Place(t, es, key)) == Place(t, es, key)
  {
    var es := Entries(t, "", lines);
    EntriesAreOwned(t, "", lines);
    var documented := Documented(t, key);
    assert Lower(WSL2) == WSL2 && Lower(EXPERIMENTAL) == EXPERIMENTAL;
    if j :| 0 <= j < |es| && Same(es[j].key, key) {
      assert es[j] in es;
      var k :| k in t.home && t.home[k] == Lower(es[j].section);
      assert Same(es[j].section, documented) || Same(es[j].section, OtherSection(documented));
    }
  }

  lemma KeysArePresence(es: seq<Entry>, key: string)
    ensures Anywhere(es, key) <==> exists c :: c in AsMap(es) && Same(c.1, key)
    ensures forall section :: Present(es, section, key) <==>
              exists c :: c in AsMap(es) && Same(c.0, section) && Same(c.1, key)
  {
    forall j | 0 <= j < |es|
      ensures (es[j].section, es[j].key) in AsMap(es)
    {
      GetFound(es, es[j].section, es[j].key);
      MapIsGet(es, es[j].section, es[j].key);
    }
    forall c | c in AsMap(es)
      ensures exists j :: 0 <= j < |es| && es[j].section == c.0 && es[j].key == c.1
    {
      GetFound(es, c.0, c.1);
      MapIsGet(es, c.0, c.1);
    }
  }

  // The code's target rule, for any walk over the present keys.
  lemma PlannedIsTargeted(t: Table, lines: seq<string>, order: seq<EntryKey>, edits: seq<Edit>)
    requires ValidTable(t)
    requires forall c :: c in order <==> c in Read(t, lines)
    requires forall i :: 0 <= i < |edits| ==> Owned(t, edits[i].key)
    ensures Targeted(t, Entries(t, "", lines), Planned(t, order, edits))
  {
    forall i | 0 <= i < |edits|
      ensures Lower(Target(t, order, edits[i].key)) == Place(t, Entries(t, "", lines), edits[i].key)
      ensures !Anywhere(Entries(t, "", lines), edits[i].key) ==> Target(t, order, edits[i].key) == Documented(t, edits[i].key)
    {
      TargetIsPlace(t, lines, order, edits[i].key);
    }
  }

  lemma TargetIsPlace(t: Table, lines: seq<string>, order: seq<EntryKey>, key: string)
    requires ValidTable(t) && Owned(t, key)
    requires forall c :: c in order <==> c in Read(t, lines)
    ensures Lower(Target(t, order, key)) == Place(t, Entries(t, "", lines), key)
    ensures !Anywhere(Entries(t, "", lines), key) ==> Target(t, order, key) == Documented(t, key)
  {
    var es := Entries(t, "", lines);
    KeysArePresence(es, key);
    CopyIsListed(t, order, key);
    var copy := Copy(t, order, key);
    if copy.Some? {
      var j := EntryFor(es, copy.value);
      assert Present(es, copy.value.0, key) && Anywhere(es, key);
      if !Same(copy.value.0, Documented(t, key)) {
        assert !Present(es, Documented(t, key), key);
        OtherSectionOf(t, lines, j, key);
      }
    }
  }

  // With two sections, what is not in one is in the other.
  lemma OtherSectionOf(t: Table, lines: seq<string>, j: nat, key: string)
    requires ValidTable(t) && Owned(t, key)
    requires j < |Entries(t, "", lines)| && !Same(Entries(t, "", lines)[j].section, Documented(t, key))
    ensures Lower(Entries(t, "", lines)[j].section) == OtherSection(Documented(t, key))
  {
    var e := Entries(t, "", lines)[j];
    EntriesAreOwned(t, "", lines);
    assert e in Entries(t, "", lines);
    var k :| k in t.home && t.home[k] == Lower(e.section);
  }

  lemma EntryFor(es: seq<Entry>, c: EntryKey) returns (j: nat)
    requires c in AsMap(es)
    ensures j < |es| && es[j].section == c.0 && es[j].key == c.1
  {
    MapIsGet(es, c.0, c.1);
    GetFound(es, c.0, c.1);
    j :| 0 <= j < |es| && es[j].section == c.0 && es[j].key == c.1;
  }

  // ---- The reading of an edited file ---------------------------------------------

  // What the edited file gives a spelling of a key, from the original file.
  ghost function Expected(t: Table, lines: seq<string>, plan: seq<Plan>, section: string, key: string): Option<string> {
    var es := Entries(t, "", lines);
    match Find(plan, section, key)
    case None => Get(es, section, key)
    case Some(i) =>
      var e := plan[i].edit;
      if e.value.None? || key != e.key then None
      else if Holds(es, section, key) || (!Present(es, plan[i].home, key) && section == NewHome(lines, plan[i].home)) then
        Some(Trim(e.value.value))
      else None
  }

  lemma {:induction false} MissingIsDistinct(plan: seq<Plan>, seen: set<EntryKey>)
    requires DistinctKeys(plan)
    ensures DistinctKeys(Missing(plan, seen))
  {
    if plan != [] {
      var n := |plan| - 1;
      MissingIsDistinct(plan[..n], seen);
      var rest := Missing(plan[..n], seen);
      forall j | 0 <= j < |rest|
        ensures !Same(rest[j].edit.key, plan[n].edit.key)
      {
        assert rest[j] in plan[..n];
      }
    }
  }

  // What is left to append is exactly the set edits whose key is not there.
  lemma EndsAreMissing(t: Table, lines: seq<string>, plan: seq<Plan>)
    requires ValidTable(t) && Sound(t, plan) && Targeted(t, Entries(t, "", lines), plan)
    ensures Settable(t, Ends(t, lines, plan))
    ensures HomesOf(Ends(t, lines, plan), Homes(Ends(t, lines, plan)))
    ensures forall i :: 0 <= i < |plan| ==>
              (plan[i] in Ends(t, lines, plan) <==>
               plan[i].edit.value.Some? && !Present(Entries(t, "", lines), plan[i].home, plan[i].edit.key))
    ensures forall p :: p in Ends(t, lines, plan) ==> p in plan
  {
    var ends, es := Ends(t, lines, plan), Entries(t, "", lines);
    MissingIsDistinct(plan, Marks(t, "", lines, plan));
    forall i | 0 <= i < |plan|
      ensures plan[i] in ends <==> plan[i].edit.value.Some? && !Present(es, plan[i].home, plan[i].edit.key)
      ensures plan[i] in ends ==> plan[i].home == Documented(t, plan[i].edit.key)
    {
      MarksArePresence(t, "", lines, plan, i);
      OwnedIsPlain(t, plan[i].edit.key);
      PlaceIsPresent(t, lines, plan[i].edit.key);
    }
    forall j | 0 <= j < |ends|
      ensures Owned(t, ends[j].edit.key)
      ensures Plain(ends[j].home) && Lower(ends[j].home) == ends[j].home && InOwned(t, ends[j].home)
    {
      assert ends[j] in plan;
      var i :| 0 <= i < |plan| && plan[i] == ends[j];
      assert plan[i] in ends;
    }
    var homes := Homes(ends);
    assert forall i :: 0 <= i < |homes| ==> homes[i] in homes;
  }

  // Which readings the appended lines add.
  lemma AddedIsExpected(t: Table, lines: seq<string>, plan: seq<Plan>, section: string, key: string)
    requires ValidTable(t) && Sound(t, plan) && Targeted(t, Entries(t, "", lines), plan)
    ensures var ends := Ends(t, lines, plan);
            var found := Find(plan, section, key);
            var isNew := found.Some? && plan[found.value].edit.value.Some? && key == plan[found.value].edit.key
                         && !Present(Entries(t, "", lines), plan[found.value].home, key)
                         && section == NewHome(lines, plan[found.value].home);
            && (forall j :: AddedAt(lines, ends, Homes(ends), j, section, key) ==> isNew && ends[j] == plan[found.value])
            && (isNew ==> exists j :: AddedAt(lines, ends, Homes(ends), j, section, key))
  {
    hide Entries, Rewrite, Classify, Documented, HeaderNames;
    var ends, found := Ends(t, lines, plan), Find(plan, section, key);
    EndsAreMissing(t, lines, plan);
    forall j | AddedAt(lines, ends, Homes(ends), j, section, key)
      ensures found.Some? && ends[j] == plan[found.value]
    {
      assert ends[j] in plan;
      var i :| 0 <= i < |plan| && plan[i] == ends[j];
      FirstNameIsSame(HeaderNames(lines), ends[j].home);
      OnlyHit(plan, i, section, key);
    }
    if found.Some? && plan[found.value] in ends {
      var j :| 0 <= j < |ends| && ends[j] == plan[found.value];
      assert ends[j].home in Homes(ends);
      if key == plan[found.value].edit.key && section == NewHome(lines, plan[found.value].home) {
        assert AddedAt(lines, ends, Homes(ends), j, section, key);
      }
    }
  }

  /** The main law: reading an edited file gives exactly the expected values. */
  lemma ReadAfterEdit(t: Table, lines: seq<string>, plan: seq<Plan>, section: string, key: string)
    requires ValidTable(t) && Sound(t, plan) && Targeted(t, Entries(t, "", lines), plan)
    ensures Get(Entries(t, "", Apply(t, lines, plan)), section, key) == Expected(t, lines, plan, section, key)
  {
    var es, out, ends := Entries(t, "", lines), Rewrite(t, "", lines, plan), Ends(t, lines, plan);
    EntriesOfRewrite(t, "", lines, plan);
    GetOfEdited(es, plan, section, key);
    EndsAreMissing(t, lines, plan);
    MissingStaysMissing(t, lines, plan);
    GetOfAppendAll(t, out, ends, Homes(ends), section, key);
    HeaderNamesOfRewrite(t, "", lines, plan);
    assert forall j :: AddedAt(out, ends, Homes(ends), j, section, key) <==> AddedAt(lines, ends, Homes(ends), j, section, key);
    AddedIsExpected(t, lines, plan, section, key);
    if Find(plan, section, key).Some? && Holds(es, section, key) {
      HoldsIsPresent(es, plan, section, key);
    }
  }

  lemma HoldsIsPresent(es: seq<Entry>, plan: seq<Plan>, section: string, key: string)
    requires Find(plan, section, key).Some? && Holds(es, section, key)
    ensures var p := plan[Find(plan, section, key).value];
            Present(es, p.home, key) && Present(es, p.home, p.edit.key)
  {
  }

  // The first pass does not make a missing key appear in its home.
  lemma MissingStaysMissing(t: Table, lines: seq<string>, plan: seq<Plan>)
    requires ValidTable(t) && Sound(t, plan) && Targeted(t, Entries(t, "", lines), plan)
    ensures var ends := Ends(t, lines, plan);
            forall j :: 0 <= j < |ends| ==>
              !Present(Entries(t, "", Rewrite(t, "", lines, plan)), ends[j].home, ends[j].edit.key)
  {
    hide Apply, HeaderNames, Documented;
    hide Entries, Rewrite, Classify;
    var ends, es, after := Ends(t, lines, plan), Entries(t, "", lines), Entries(t, "", Rewrite(t, "", lines, plan));
    EndsAreMissing(t, lines, plan);
    EntriesOfRewrite(t, "", lines, plan);
    forall j | 0 <= j < |ends|
      ensures !Present(after, ends[j].home, ends[j].edit.key)
    {
      if m :| 0 <= m < |after| && Same(after[m].section, ends[j].home) && Same(after[m].key, ends[j].edit.key) {
        var section, key := after[m].section, after[m].key;
        assert ends[j] in plan;
        var i :| 0 <= i < |plan| && plan[i] == ends[j];
        assert plan[i] in ends;
        GetFound(after, section, key);
        GetOfEdited(es, plan, section, key);
        OnlyHit(plan, i, section, key);
        HoldsIsPresent(es, plan, section, key);
      }
    }
  }

  // ---- Put and get -------------------------------------------------------------------

  /** Put-get: after an edit, its key is read in its target section as the value
      set, in every spelling there, and at least one spelling is there; a
      removed key is read in no spelling. */
  lemma PutGet(t: Table, lines: seq<string>, plan: seq<Plan>, i: nat)
    requires ValidTable(t) && Sound(t, plan) && Targeted(t, Entries(t, "", lines), plan) && i < |plan|
    ensures var after := Read(t, Apply(t, lines, plan));
            var e := plan[i].edit;
            && (forall c :: c in after && Same(c.0, plan[i].home) && Same(c.1, e.key) ==>
                  e.value.Some? && after[c] == Trim(e.value.value))
            && (e.value.Some? ==> exists c :: c in after && Same(c.0, plan[i].home) && Same(c.1, e.key))
  {
    hide Apply, Entries, Documented;
    var es, after := Entries(t, "", lines), Read(t, Apply(t, lines, plan));
    var e := plan[i].edit;
    forall c | c in after && Same(c.0, plan[i].home) && Same(c.1, e.key)
      ensures e.value.Some? && after[c] == Trim(e.value.value)
    {
      MapIsGet(Entries(t, "", Apply(t, lines, plan)), c.0, c.1);
      ReadAfterEdit(t, lines, plan, c.0, c.1);
      OnlyHit(plan, i, c.0, c.1);
    }
    if e.value.Some? {
      var section := NewHome(lines, plan[i].home);
      FirstNameIsSame(HeaderNames(lines), plan[i].home);
      if j :| 0 <= j < |es| && Same(es[j].section, plan[i].home) && Same(es[j].key, e.key) {
        section := es[j].section;
        assert Holds(es, section, e.key);
      }
      MapIsGet(Entries(t, "", Apply(t, lines, plan)), section, e.key);
      ReadAfterEdit(t, lines, plan, section, e.key);
      OnlyHit(plan, i, section, e.key);
      assert (section, e.key) in after;
    }
  }

  /** Frame: a setting no edit is aimed at reads exactly as before. */
  lemma ReadFrame(t: Table, lines: seq<string>, plan: seq<Plan>, c: EntryKey)
    requires ValidTable(t) && Sound(t, plan) && Targeted(t, Entries(t, "", lines), plan)
    requires forall i :: 0 <= i < |plan| ==> !(Same(plan[i].home, c.0) && Same(plan[i].edit.key, c.1))
    ensures c in Read(t, Apply(t, lines, plan)) <==> c in Read(t, lines)
    ensures c in Read(t, lines) ==> Read(t, Apply(t, lines, plan))[c] == Read(t, lines)[c]
  {
    MapIsGet(Entries(t, "", lines), c.0, c.1);
    MapIsGet(Entries(t, "", Apply(t, lines, plan)), c.0, c.1);
    ReadAfterEdit(t, lines, plan, c.0, c.1);
  }

  /** The window agrees with the save: after an edit with a value, the copy the
      window shows is in the target section and holds that value; after a
      removal it shows a copy only if one was left in the other section. */
  lemma ShownAfterEdit(t: Table, lines: seq<string>, plan: seq<Plan>, i: nat, order: seq<EntryKey>)
    requires ValidTable(t) && Sound(t, plan) && Targeted(t, Entries(t, "", lines), plan) && i < |plan|
    requires forall c :: c in order <==> c in Read(t, Apply(t, lines, plan))
    ensures var e := plan[i].edit;
            var shown := Shown(t, order, Read(t, Apply(t, lines, plan)), e.key);
            && (e.value.Some? ==> Same(shown.0, plan[i].home) && shown.1 == Some(Trim(e.value.value)))
            && (e.value.None? ==>
                  (shown.1.Some? <==>
                   exists c :: c in Read(t, lines) && Same(c.1, e.key) && !Same(c.0, plan[i].home)))
  {
    var before, after := Read(t, lines), Read(t, Apply(t, lines, plan));
    var key, home, documented := plan[i].edit.key, plan[i].home, Documented(t, plan[i].edit.key);
    CopyIsListed(t, order, key);
    PutGet(t, lines, plan, i);
    KeysArePresence(Entries(t, "", lines), key);
    ElsewhereIsKept(t, lines, plan, i);
    var copy := Copy(t, order, key);
    if copy.Some? && plan[i].edit.value.Some? && !Same(copy.value.0, home) {
      // The target is the documented section unless the file has the key only
      // in the other one.
      assert copy.value in after && copy.value in before;
      SplitPlace(t, lines, plan, i, copy.value);
    }
  }

  // Copies outside the target section come through the edit as they are.
  lemma ElsewhereIsKept(t: Table, lines: seq<string>, plan: seq<Plan>, i: nat)
    requires ValidTable(t) && Sound(t, plan) && Targeted(t, Entries(t, "", lines), plan) && i < |plan|
    ensures forall c: EntryKey :: Same(c.1, plan[i].edit.key) && !Same(c.0, plan[i].home) ==>
              (c in Read(t, Apply(t, lines, plan)) <==> c in Read(t, lines))
  {
    forall c: EntryKey | Same(c.1, plan[i].edit.key) && !Same(c.0, plan[i].home)
      ensures c in Read(t, Apply(t, lines, plan)) <==> c in Read(t, lines)
    {
      forall j | 0 <= j < |plan|
        ensures !(Same(plan[j].home, c.0) && Same(plan[j].edit.key, c.1))
      {
        if Same(plan[j].edit.key, c.1) {
          SameKeySameEdit(plan, i, j);
        }
      }
      ReadFrame(t, lines, plan, c);
    }
  }

  // A copy outside the target is in the other section, and the target is the
  // documented one.
  lemma SplitPlace(t: Table, lines: seq<string>, plan: seq<Plan>, i: nat, c: EntryKey)
    requires ValidTable(t) && Sound(t, plan) && Targeted(t, Entries(t, "", lines), plan) && i < |plan|
    requires c in Read(t, lines) && Same(c.1, plan[i].edit.key) && !Same(c.0, plan[i].home)
    ensures Same(plan[i].home, Documented(t, plan[i].edit.key))
  {
    var es, key := Entries(t, "", lines), plan[i].edit.key;
    var j := EntryFor(es, c);
    PlaceIsPresent(t, lines, key);
    if !Same(c.0, Documented(t, key)) {
      OtherSectionOf(t, lines, j, key);
    } else {
      assert Present(es, Documented(t, key), key);
    }
  }
}
