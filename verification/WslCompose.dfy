/** Edits after edits: one batch against one edit at a time, the order of the
    edits, and saving twice. */
module WslCompose {
  import opened Wrappers
  import opened Text
  import opened WslConfig
  import opened WslLaws
  import opened WslTheorems

  // ---- What an edit leaves for the next one ----------------------------------------

  ghost predicate Mentions(plan: seq<Plan>, key: string) {
    exists i :: 0 <= i < |plan| && Same(plan[i].edit.key, key)
  }

  // Keys an edit does not mention are where they were.
  lemma OthersStay(t: Table, lines: seq<string>, plan: seq<Plan>, key: string)
    requires ValidTable(t) && Sound(t, plan) && Targeted(t, Entries(t, "", lines), plan)
    requires !Mentions(plan, key)
    ensures var before, after := Entries(t, "", lines), Entries(t, "", Apply(t, lines, plan));
            && (forall section, k :: Same(k, key) ==> Get(after, section, k) == Get(before, section, k))
            && (Anywhere(after, key) <==> Anywhere(before, key))
            && (forall section :: Present(after, section, key) <==> Present(before, section, key))
            && (forall section, k :: Same(k, key) ==> (Holds(after, section, k) <==> Holds(before, section, k)))
            && Place(t, after, key) == Place(t, before, key)
  {
    var before, after := Entries(t, "", lines), Entries(t, "", Apply(t, lines, plan));
    forall section, k | Same(k, key)
      ensures Get(after, section, k) == Get(before, section, k)
    {
      ReadAfterEdit(t, lines, plan, section, k);
    }
    CopiesFollow(before, after, key);
    CopiesFollow(after, before, key);
  }

  lemma CopiesFollow(a: seq<Entry>, b: seq<Entry>, key: string)
    requires forall section, k :: Same(k, key) ==> Get(b, section, k) == Get(a, section, k)
    ensures Anywhere(a, key) ==> Anywhere(b, key)
    ensures forall section :: Present(a, section, key) ==> Present(b, section, key)
    ensures forall section, k :: Same(k, key) && Holds(a, section, k) ==> Holds(b, section, k)
  {
    forall j | 0 <= j < |a| && Same(a[j].key, key)
      ensures exists m :: 0 <= m < |b| && b[m].section == a[j].section && b[m].key == a[j].key
    {
      GetFound(a, a[j].section, a[j].key);
      GetFound(b, a[j].section, a[j].key);
    }
  }

  // A home keeps the name it has, or would get, in the file.
  lemma {:induction false} NewHomeStays(t: Table, lines: seq<string>, ends: seq<Plan>, homes: seq<string>, home: string)
    requires ValidTable(t) && Settable(t, ends) && HomesOf(ends, homes) && Lower(home) == home
    ensures NewHome(AppendAll(lines, ends, homes), home) == NewHome(lines, home)
    decreases homes
  {
    hide Entries, Classify, AppendGroup, Group;
    if homes != [] {
      var n := |homes| - 1;
      var last, sofar := homes[n], AppendAll(lines, ends, homes[..n]);
      HomesPrefix(ends, homes);
      NewHomeStays(t, lines, ends, homes[..n], home);
      var j :| 0 <= j < |ends| && ends[j].home == last;
      var before, after := EntriesOfAppendGroup(t, sofar, ends, last);
      FirstNameAtEnd(HeaderNames(sofar), last, home);
      assert HeaderNames(sofar) + [] == HeaderNames(sofar);
    }
  }

  lemma {:induction false} FirstNameAtEnd(names: seq<string>, extra: string, home: string)
    requires Lower(extra) == extra && Lower(home) == home
    ensures FirstName(names + [extra], home) == FirstName(names, home)
  {
    if names == [] {
      assert (names + [extra])[1..] == [];
    } else {
      assert (names + [extra])[1..] == names[1..] + [extra];
      FirstNameAtEnd(names[1..], extra, home);
    }
  }

  lemma NewHomeAfterEdit(t: Table, lines: seq<string>, plan: seq<Plan>, home: string)
    requires ValidTable(t) && Sound(t, plan) && Targeted(t, Entries(t, "", lines), plan) && Lower(home) == home
    ensures NewHome(Apply(t, lines, plan), home) == NewHome(lines, home)
  {
    var ends := Ends(t, lines, plan);
    EndsAreMissing(t, lines, plan);
    HeaderNamesOfRewrite(t, "", lines, plan);
    NewHomeStays(t, Rewrite(t, "", lines, plan), ends, Homes(ends), home);
  }

  // ---- Order and batching -------------------------------------------------------------

  ghost function EditsOf(plan: seq<Plan>): set<Edit> {
    set i | 0 <= i < |plan| :: plan[i].edit
  }

  // One edit decides a spelling of a key, and its outcome depends only on the file.
  ghost function Outcome(t: Table, lines: seq<string>, e: Edit, section: string, key: string): Option<string> {
    var es := Entries(t, "", lines);
    var place := Place(t, es, e.key);
    if Lower(section) != place then Get(es, section, key)
    else if e.value.None? || key != e.key then None
    else if Holds(es, section, key) || (!Anywhere(es, e.key) && section == NewHome(lines, place)) then
      Some(Trim(e.value.value))
    else None
  }

  lemma ReadIsOutcome(t: Table, lines: seq<string>, plan: seq<Plan>, i: nat, section: string, key: string)
    requires ValidTable(t) && Sound(t, plan) && Targeted(t, Entries(t, "", lines), plan)
    requires i < |plan| && Same(plan[i].edit.key, key)
    ensures Get(Entries(t, "", Apply(t, lines, plan)), section, key) == Outcome(t, lines, plan[i].edit, section, key)
  {
    hide Apply, Entries, Lower;
    var es, home := Entries(t, "", lines), plan[i].home;
    ReadAfterEdit(t, lines, plan, section, key);
    PlaceIsPresent(t, lines, plan[i].edit.key);
    PresentFolds(es, home, plan[i].edit.key);
    if Same(home, section) {
      OnlyHit(plan, i, section, key);
      if !Anywhere(es, plan[i].edit.key) {
        assert home == Place(t, es, plan[i].edit.key);
      }
    } else if Find(plan, section, key).Some? {
      SameKeySameEdit(plan, i, Find(plan, section, key).value);
    }
  }

  lemma PresentFolds(es: seq<Entry>, section: string, key: string)
    ensures Present(es, Lower(section), key) <==> Present(es, section, key)
  {
    LowerIdempotent(section);
  }

  lemma ReadUnmentioned(t: Table, lines: seq<string>, plan: seq<Plan>, section: string, key: string)
    requires ValidTable(t) && Sound(t, plan) && Targeted(t, Entries(t, "", lines), plan) && !Mentions(plan, key)
    ensures Get(Entries(t, "", Apply(t, lines, plan)), section, key) == Get(Entries(t, "", lines), section, key)
  {
    ReadAfterEdit(t, lines, plan, section, key);
  }

  // The edit of a key is the same edit in both plans.
  lemma Partner(a: seq<Plan>, b: seq<Plan>, key: string)
    requires EditsOf(a) == EditsOf(b)
    ensures Mentions(a, key) <==> Mentions(b, key)
    ensures Mentions(a, key) ==>
              exists i, j :: 0 <= i < |a| && 0 <= j < |b| && Same(a[i].edit.key, key) && a[i].edit == b[j].edit
  {
    if i :| 0 <= i < |a| && Same(a[i].edit.key, key) {
      assert a[i].edit in EditsOf(b);
      var j :| 0 <= j < |b| && a[i].edit == b[j].edit;
    }
    if j :| 0 <= j < |b| && Same(b[j].edit.key, key) {
      assert b[j].edit in EditsOf(a);
      var i :| 0 <= i < |a| && a[i].edit == b[j].edit;
    }
  }

  lemma OrderAt(t: Table, lines: seq<string>, a: seq<Plan>, b: seq<Plan>, section: string, key: string)
    requires ValidTable(t) && Sound(t, a) && Sound(t, b) && EditsOf(a) == EditsOf(b)
    requires Targeted(t, Entries(t, "", lines), a) && Targeted(t, Entries(t, "", lines), b)
    ensures Get(Entries(t, "", Apply(t, lines, a)), section, key) == Get(Entries(t, "", Apply(t, lines, b)), section, key)
  {
    Partner(a, b, key);
    if Mentions(a, key) {
      var i, j :| 0 <= i < |a| && 0 <= j < |b| && Same(a[i].edit.key, key) && a[i].edit == b[j].edit;
      ReadIsOutcome(t, lines, a, i, section, key);
      ReadIsOutcome(t, lines, b, j, section, key);
    } else {
      ReadUnmentioned(t, lines, a, section, key);
      ReadUnmentioned(t, lines, b, section, key);
    }
  }

  /** Commutation: the order of the edits, and the order in which the present
      keys were walked to place them, never shows in what is read. */
  lemma OrderNeverShows(t: Table, lines: seq<string>, a: seq<Plan>, b: seq<Plan>)
    requires ValidTable(t) && Sound(t, a) && Sound(t, b) && EditsOf(a) == EditsOf(b)
    requires Targeted(t, Entries(t, "", lines), a) && Targeted(t, Entries(t, "", lines), b)
    ensures Read(t, Apply(t, lines, a)) == Read(t, Apply(t, lines, b))
  {
    var x, y := Entries(t, "", Apply(t, lines, a)), Entries(t, "", Apply(t, lines, b));
    forall section, key
      ensures Get(x, section, key) == Get(y, section, key)
    {
      OrderAt(t, lines, a, b, section, key);
    }
    SameReading(x, y);
  }

  lemma SameReading(a: seq<Entry>, b: seq<Entry>)
    requires forall section, key :: Get(a, section, key) == Get(b, section, key)
    ensures AsMap(a) == AsMap(b)
  {
    forall c: EntryKey
      ensures c in AsMap(a) <==> c in AsMap(b)
      ensures c in AsMap(a) ==> AsMap(a)[c] == AsMap(b)[c]
    {
      MapIsGet(a, c.0, c.1);
      MapIsGet(b, c.0, c.1);
    }
  }

  ghost predicate Splits(first: seq<Plan>, second: seq<Plan>, batch: seq<Plan>) {
    && |batch| == |first| + |second|
    && (forall i :: 0 <= i < |first| ==> batch[i].edit == first[i].edit)
    && (forall i :: 0 <= i < |second| ==> batch[|first| + i].edit == second[i].edit)
  }

  // The three cases of a key, each on its own.
  lemma BatchOfFirst(t: Table, lines: seq<string>, first: seq<Plan>, second: seq<Plan>, batch: seq<Plan>,
                     i: nat, m: nat, section: string, key: string)
    requires ValidTable(t) && Sound(t, first) && Sound(t, second) && Sound(t, batch)
    requires Targeted(t, Entries(t, "", lines), first) && Targeted(t, Entries(t, "", lines), batch)
    requires Targeted(t, Entries(t, "", Apply(t, lines, first)), second)
    requires i < |first| && m < |batch| && Same(first[i].edit.key, key) && batch[m].edit == first[i].edit
    requires !Mentions(second, key)
    ensures Get(Entries(t, "", Apply(t, Apply(t, lines, first), second)), section, key) ==
            Get(Entries(t, "", Apply(t, lines, batch)), section, key)
  {
    ReadIsOutcome(t, lines, first, i, section, key);
    ReadIsOutcome(t, lines, batch, m, section, key);
    ReadUnmentioned(t, Apply(t, lines, first), second, section, key);
  }

  lemma BatchOfSecond(t: Table, lines: seq<string>, first: seq<Plan>, second: seq<Plan>, batch: seq<Plan>,
                      j: nat, m: nat, section: string, key: string)
    requires ValidTable(t) && Sound(t, first) && Sound(t, second) && Sound(t, batch)
    requires Targeted(t, Entries(t, "", lines), first) && Targeted(t, Entries(t, "", lines), batch)
    requires Targeted(t, Entries(t, "", Apply(t, lines, first)), second)
    requires j < |second| && m < |batch| && Same(second[j].edit.key, key) && batch[m].edit == second[j].edit
    requires !Mentions(first, key)
    ensures Get(Entries(t, "", Apply(t, Apply(t, lines, first), second)), section, key) ==
            Get(Entries(t, "", Apply(t, lines, batch)), section, key)
  {
    SecondOutcome(t, lines, first, second[j].edit, section, key);
    ReadIsOutcome(t, Apply(t, lines, first), second, j, section, key);
    ReadIsOutcome(t, lines, batch, m, section, key);
  }

  lemma BatchOfNeither(t: Table, lines: seq<string>, first: seq<Plan>, second: seq<Plan>, batch: seq<Plan>,
                       section: string, key: string)
    requires ValidTable(t) && Sound(t, first) && Sound(t, second) && Sound(t, batch)
    requires Targeted(t, Entries(t, "", lines), first) && Targeted(t, Entries(t, "", lines), batch)
    requires Targeted(t, Entries(t, "", Apply(t, lines, first)), second)
    requires !Mentions(first, key) && !Mentions(second, key) && !Mentions(batch, key)
    ensures Get(Entries(t, "", Apply(t, Apply(t, lines, first), second)), section, key) ==
            Get(Entries(t, "", Apply(t, lines, batch)), section, key)
  {
    ReadUnmentioned(t, lines, first, section, key);
    ReadUnmentioned(t, Apply(t, lines, first), second, section, key);
    ReadUnmentioned(t, lines, batch, section, key);
  }

  lemma BatchAt(t: Table, lines: seq<string>, first: seq<Plan>, second: seq<Plan>, batch: seq<Plan>,
                section: string, key: string)
    requires ValidTable(t) && Sound(t, first) && Sound(t, second) && Sound(t, batch)
    requires Targeted(t, Entries(t, "", lines), first) && Targeted(t, Entries(t, "", lines), batch)
    requires Targeted(t, Entries(t, "", Apply(t, lines, first)), second)
    requires Splits(first, second, batch)
    ensures Get(Entries(t, "", Apply(t, Apply(t, lines, first), second)), section, key) ==
            Get(Entries(t, "", Apply(t, lines, batch)), section, key)
  {
    hide Apply, Entries, Targeted, Get, Same;
    if i :| 0 <= i < |first| && Same(first[i].edit.key, key) {
      NotInSecond(first, second, batch, i);
      BatchOfFirst(t, lines, first, second, batch, i, i, section, key);
    } else if j :| 0 <= j < |second| && Same(second[j].edit.key, key) {
      BatchOfSecond(t, lines, first, second, batch, j, |first| + j, section, key);
    } else {
      NotInBatch(first, second, batch, key);
      BatchOfNeither(t, lines, first, second, batch, section, key);
    }
  }

  /** Batch is sequence: one save with all the edits reads like two saves that
      split them, the second planned on the file the first one left. */
  lemma BatchIsSequence(t: Table, lines: seq<string>, first: seq<Plan>, second: seq<Plan>, batch: seq<Plan>)
    requires ValidTable(t) && Sound(t, first) && Sound(t, second) && Sound(t, batch)
    requires Targeted(t, Entries(t, "", lines), first) && Targeted(t, Entries(t, "", lines), batch)
    requires Targeted(t, Entries(t, "", Apply(t, lines, first)), second)
    requires Splits(first, second, batch)
    ensures Read(t, Apply(t, Apply(t, lines, first), second)) == Read(t, Apply(t, lines, batch))
  {
    var x, y := Entries(t, "", Apply(t, Apply(t, lines, first), second)), Entries(t, "", Apply(t, lines, batch));
    forall section, key
      ensures Get(x, section, key) == Get(y, section, key)
    {
      BatchAt(t, lines, first, second, batch, section, key);
    }
    SameReading(x, y);
  }

  lemma NotInSecond(first: seq<Plan>, second: seq<Plan>, batch: seq<Plan>, i: nat)
    requires DistinctKeys(batch) && Splits(first, second, batch) && i < |first|
    ensures forall key :: Same(first[i].edit.key, key) ==> !Mentions(second, key)
  {
    forall j | 0 <= j < |second|
      ensures !Same(second[j].edit.key, first[i].edit.key)
    {
      assert !Same(batch[i].edit.key, batch[|first| + j].edit.key);
    }
  }

  lemma NotInBatch(first: seq<Plan>, second: seq<Plan>, batch: seq<Plan>, key: string)
    requires Splits(first, second, batch) && !Mentions(first, key) && !Mentions(second, key)
    ensures !Mentions(batch, key)
  {
    forall i | 0 <= i < |batch|
      ensures !Same(batch[i].edit.key, key)
    {
      if i >= |first| {
        assert batch[|first| + (i - |first|)].edit == second[i - |first|].edit;
      }
    }
  }

  // An edit on a key the first save did not mention comes out the same.
  lemma SecondOutcome(t: Table, lines: seq<string>, first: seq<Plan>, e: Edit, section: string, key: string)
    requires ValidTable(t) && Sound(t, first) && Targeted(t, Entries(t, "", lines), first)
    requires Owned(t, e.key) && Same(e.key, key) && !Mentions(first, key)
    ensures Outcome(t, Apply(t, lines, first), e, section, key) == Outcome(t, lines, e, section, key)
  {
    OthersStay(t, lines, first, e.key);
    PlaceIsPresent(t, lines, e.key);
    NewHomeAfterEdit(t, lines, first, Place(t, Entries(t, "", lines), e.key));
  }
}
