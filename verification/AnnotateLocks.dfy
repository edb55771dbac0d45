/** The lock around an open draft, and the limits of what the annotator can
    promise about previews. */
module AnnotateLocks {
  import opened Wrappers
  import Text
  import opened Annotate
  import opened AnnotateLaws

  // ---- The draft lock ---------------------------------------------------------------

  ghost predicate Live(items: seq<Item>, id: nat) {
    exists i :: 0 <= i < |items| && items[i].id == id
  }

  // Ids are given out once, and items are numbered by position.
  ghost predicate InOrder(items: seq<Item>, lastId: nat) {
    && (forall i :: 0 <= i < |items| ==> items[i].n == i + 1 && items[i].id <= lastId)
    && (forall i, j :: 0 <= i < j < |items| ==> items[i].id != items[j].id)
  }

  // Nothing unsaved but the item whose card is open.
  ghost predicate OneDraft(items: seq<Item>, editing: Option<nat>) {
    forall i :: 0 <= i < |items| && !items[i].saved ==> editing == Some(items[i].id)
  }

  ghost predicate Locked(s: State) {
    && (s.cardOpen <==> s.editing.Some?)
    && (s.editing.Some? ==> Live(s.items, s.editing.value))
    && (s.menuOpen <==> s.menuFor.Some?)
    && (s.menuFor.Some? ==> Live(s.items, s.menuFor.value))
    && !(s.menuOpen && s.cardOpen)
    && OneDraft(s.items, s.editing)
    && InOrder(s.items, s.lastId)
    && (!s.on ==> s.items == [])
  }

  // The same items under the same ids, saved or not.
  ghost predicate SameRoll(a: seq<Item>, b: seq<Item>) {
    |a| == |b| && forall i :: 0 <= i < |a| ==> a[i].id == b[i].id && a[i].saved == b[i].saved && a[i].n == b[i].n
  }

  lemma LiveByRoll(a: seq<Item>, b: seq<Item>, id: nat)
    requires SameRoll(a, b)
    ensures Live(a, id) <==> Live(b, id)
  {
    if i :| 0 <= i < |a| && a[i].id == id {
      assert b[i].id == id;
    }
    if i :| 0 <= i < |b| && b[i].id == id {
      assert a[i].id == id;
    }
  }

  lemma LockedByRoll(s: State, items: seq<Item>, page: Page)
    requires Locked(s) && SameRoll(s.items, items)
    ensures Locked(s.(items := items, page := page))
  {
    hide Live;
    if s.editing.Some? { LiveByRoll(s.items, items, s.editing.value); }
    if s.menuFor.Some? { LiveByRoll(s.items, items, s.menuFor.value); }
  }

  lemma ApplyEditKeepsTheRoll(s: State, i: nat, p: Prop, next: string)
    requires i < |s.items|
    ensures SameRoll(s.items, ApplyEdit(s, i, p, next).items)
    ensures ApplyEdit(s, i, p, next) == s.(items := ApplyEdit(s, i, p, next).items, page := ApplyEdit(s, i, p, next).page)
  {
    hide SameStyle, Put;
  }

  lemma RestoreIsLocked(s: State, i: nat)
    requires i < |s.items| && Locked(s)
    ensures Locked(Restore(s, i))
  {
    LockedByRoll(s, Cleared(s.items, i), Restore(s, i).page);
  }

  // Removing item i leaves the others, renumbered.
  lemma RemovedRoll(s: State, i: nat)
    requires i < |s.items|
    ensures var after := Remove(s, i).items;
            && |after| == |s.items| - 1
            && forall k :: 0 <= k < |after| ==>
                 var m := if k < i then k else k + 1;
                 after[k].id == s.items[m].id && after[k].saved == s.items[m].saved && after[k].n == k + 1
  {
    hide PutBackAll, Edits, Own;
    var id := s.items[i].id;
    var a := if s.editing == Some(id) then CloseCard(s) else s;
    var b := if a.menuFor == Some(id) then CloseMenu(a) else a;
    var rest := Cleared(s.items, i)[..i] + Cleared(s.items, i)[i + 1..];
    assert Remove(s, i).items == Numbered(rest);
  }

  lemma RemovedIsLive(s: State, i: nat, id: nat)
    requires i < |s.items| && InOrder(s.items, s.lastId)
    ensures Live(Remove(s, i).items, id) <==> id != s.items[i].id && Live(s.items, id)
  {
    RemovedRoll(s, i);
    var after := Remove(s, i).items;
    hide Remove;
    if id != s.items[i].id && Live(s.items, id) {
      var j :| 0 <= j < |s.items| && s.items[j].id == id;
      assert after[if j < i then j else j - 1].id == id;
    }
    if Live(after, id) {
      var k :| 0 <= k < |after| && after[k].id == id;
      var m := if k < i then k else k + 1;
      assert s.items[m].id == id;
    }
  }

  // Removing an item closes what was open on it.
  lemma RemoveIsLocked(s: State, i: nat)
    requires i < |s.items| && Locked(s)
    ensures Locked(Remove(s, i))
    ensures s.editing == Some(s.items[i].id) ==> Remove(CloseCard(s), i) == Remove(s, i)
  {
    hide Restore, Numbered;
    RemovedRoll(s, i);
    if s.editing.Some? { RemovedIsLive(s, i, s.editing.value); }
    if s.menuFor.Some? { RemovedIsLive(s, i, s.menuFor.value); }
    RemovedIsOneDraft(s, i);
    RemovedInOrder(s, i);
    hide Live, InOrder, OneDraft;
  }

  lemma RemovedInOrder(s: State, i: nat)
    requires i < |s.items| && InOrder(s.items, s.lastId)
    ensures InOrder(Remove(s, i).items, s.lastId)
  {
    RemovedRoll(s, i);
    hide Remove;
  }

  lemma RemovedIsOneDraft(s: State, i: nat)
    requires i < |s.items| && OneDraft(s.items, s.editing) && InOrder(s.items, s.lastId)
    ensures OneDraft(Remove(s, i).items, if s.editing == Some(s.items[i].id) then None else s.editing)
  {
    RemovedRoll(s, i);
    hide Remove;
  }

  lemma EmptyIsLocked(s: State)
    ensures Locked(Empty(s))
  {
  }

  lemma FoundIsLive(items: seq<Item>, id: nat)
    ensures Find(items, id).Some? <==> Live(items, id)
  {
  }

  lemma OpenCardIsLocked(s: State, id: nat)
    requires Locked(s) && !s.cardOpen && Live(s.items, id)
    ensures Locked(OpenCard(s, id))
  {
  }

  lemma PickIsLocked(s: State, el: Element, computed: map<Prop, string>)
    requires Locked(s) && s.on && !s.cardOpen
    ensures Locked(PickNow(s, el, computed))
  {
    hide InlineOf;
    var after := PickNow(s, el, computed);
    assert forall i :: 0 <= i < |s.items| ==>
             after.items[i].id == s.items[i].id && after.items[i].saved == s.items[i].saved;
    assert after.items[|s.items|].id == s.lastId + 1;
  }

  lemma SaveIsLocked(s: State, i: nat, comment: string)
    requires Locked(s) && i < |s.items| && s.editing == Some(s.items[i].id)
    ensures Locked(CloseCard(s.(items := Numbered(s.items[i := s.items[i].(comment := comment, saved := true)]))))
  {
    var items := Numbered(s.items[i := s.items[i].(comment := comment, saved := true)]);
    assert forall k :: 0 <= k < |items| ==> items[k].id == s.items[k].id && (items[k].saved <==> k == i || s.items[k].saved);
    forall k | 0 <= k < |items|
      ensures items[k].saved
    {
      if k != i {
        assert s.items[k].id != s.items[i].id;
      }
    }
  }

  lemma CancelIsLocked(s: State)
    requires Locked(s)
    ensures Locked(CancelCard(s))
  {
    hide Restore, Remove, Live, InOrder;
    if s.editing.Some? {
      FoundIsLive(s.items, s.editing.value);
      var i := Find(s.items, s.editing.value).value;
      RemoveIsLocked(s, i);
      RestoreIsLocked(s, i);
      if s.items[i].saved {
        ClosingASavedCard(s, i);
      }
    }
  }

  lemma ClosingASavedCard(s: State, i: nat)
    requires Locked(s) && i < |s.items| && s.items[i].saved && s.editing == Some(s.items[i].id)
    ensures Locked(CloseCard(Restore(s, i)))
  {
    var r := Restore(s, i);
    RestoreIsLocked(s, i);
    assert SameRoll(s.items, r.items);
    forall k | 0 <= k < |r.items|
      ensures r.items[k].saved
    {
      assert s.items[k].id == s.items[i].id ==> k == i;
    }
  }

  lemma RemoveByIdIsLocked(s: State, id: nat)
    requires Locked(s)
    ensures Locked(RemoveById(s, id))
  {
    hide Remove, Locked;
    if Find(s.items, id).Some? {
      RemoveIsLocked(s, Find(s.items, id).value);
    }
  }

  lemma StepIsLocked(s: State, e: Event)
    requires Locked(s)
    ensures Locked(Step(s, e))
  {
    hide Remove, ApplyEdit, Empty, CancelCard, PickNow, Live, InOrder, OneDraft;
    EmptyIsLocked(s);
    EmptyIsLocked(s.(on := false));
    CancelIsLocked(s);
    match e
    case Enter => LockedByRoll(s, NumberedRoll(s), s.page);
    case DropLast => if s.items != [] { RemoveIsLocked(s, |s.items| - 1); }
    case Pick(el, computed) => if s.on && !s.cardOpen { PickIsLocked(s, el, computed); }
    case Save(comment) =>
      var found := if s.on && s.editing.Some? then Find(s.items, s.editing.value) else None;
      if found.Some? { SaveIsLocked(s, found.value, comment); }
    case Trash => if s.editing.Some? { RemoveByIdIsLocked(s, s.editing.value); }
    case ClickPin(id) =>
      FoundIsLive(s.items, id);
      if !s.cardOpen && Live(s.items, id) { OpenCardIsLocked(s, id); }
    case ClickDots(id) => FoundIsLive(s.items, id);
    case ClickRemove(id) => RemoveByIdIsLocked(s, id);
    case Menu(choice) =>
      if s.menuFor.Some? {
        RemoveByIdIsLocked(CloseMenu(s), s.menuFor.value);
        OpenCardIsLocked(CloseMenu(s), s.menuFor.value);
      }
    case Propose(prop, next) =>
      var found := if s.on && s.editing.Some? then Find(s.items, s.editing.value) else None;
      if found.Some? {
        ApplyEditKeepsTheRoll(s, found.value, prop, next);
        LockedByRoll(s, ApplyEdit(s, found.value, prop, next).items, ApplyEdit(s, found.value, prop, next).page);
      }
    case _ =>
  }

  // Renumbering items in order changes nothing.
  function NumberedRoll(s: State): (r: seq<Item>)
    requires InOrder(s.items, s.lastId)
    ensures r == Numbered(s.items) && SameRoll(s.items, r)
  {
    Numbered(s.items)
  }

  /** The draft lock, after any events at all: the card is open exactly while an
      item is being edited, that item and the menu's are on the page, menu and
      card are never open together, nothing is unsaved but the draft in the
      open card, items are numbered 1..N in order, and there are no items while
      the mode is off. */
  lemma {:induction false} DraftLock(page: Page, events: seq<Event>)
    ensures Locked(Run(Injected(page), events))
  {
    if events != [] {
      hide Step, Locked;
      DraftLock(page, events[..|events| - 1]);
      StepIsLocked(Run(Injected(page), events[..|events| - 1]), events[|events| - 1]);
    } else {
      NothingOpen(page);
    }
  }

  lemma NothingOpen(page: Page)
    ensures Locked(Injected(page))
  {
  }

  /** A stray click never costs an open draft: while a card is open, picking,
      pins, dots and page clicks leave the draft, its card and its item alone. */
  lemma StrayClicksAreHarmless(s: State, e: Event)
    requires Locked(s) && s.cardOpen
    requires e.Pick? || e.ClickPin? || e.ClickDots? || e.ClickPage? || e.Enter?
    ensures Step(s, e) == s.(on := s.on || e.Enter?)
  {
    if e.Enter? {
      assert Numbered(s.items) == s.items;
    }
  }

  // ---- The limits of previews ----------------------------------------------------------

  lemma FindLast(items: seq<Item>, lastId: nat)
    requires InOrder(items, lastId) && items != []
    ensures Find(items, items[|items| - 1].id) == Some(|items| - 1)
  {
  }

  // Picking an element, proposing a value and leaving puts back what the pick
  // found there.
  lemma LeavingPutsTheSnapshotBack(s: State, el: Element, computed: map<Prop, string>, p: Prop, next: string)
    requires Locked(s) && s.on && !s.cardOpen && Tidy(s.page)
    requires next != "" && !SameStyle(next, if p in computed then computed[p] else "")
    ensures At(Run(s, [Pick(el, computed), Propose(p, next), Exit]).page, el, p) == At(s.page, el, p)
  {
    var a := Step(s, Pick(el, computed));
    PickedIsLast(s, el, computed, p);
    var b := Step(a, Propose(p, next));
    ProposedIsLast(a, p, next);
    var n := |s.items|;
    assert LastEditor(b.items, n + 1, el, p) == Some(n);
    AtEmpty(b.(on := false), el, p);
    ThreeSteps(s, Pick(el, computed), Propose(p, next), Exit);
  }

  lemma NormalX()
    ensures Normal("x") == "x"
  {
    assert Normal("x") == "x" + Normal("");
  }

  lemma {:induction false} NormalGrows(a: string)
    ensures Normal(a + "x") == Normal(a) + "x"
  {
    hide Text.IsSpace, Text.LowerChar;
    if a == "" {
      assert a + "x" == "x";
      NormalX();
    } else {
      NormalGrows(a[1..]);
      assert (a + "x")[1..] == a[1..] + "x";
    }
  }

  /** An element that shows something else than the page had there must not be
      picked: some value, proposed for it and left, hands the page back with that
      still on it. */
  lemma PickingUnderAPreviewSticks(s: State, el: Element, computed: map<Prop, string>, original: Page)
    returns (p: Prop, next: string)
    requires Locked(s) && s.on && !s.cardOpen && Tidy(s.page) && !TrueSnapshot(s.page, el, original)
    ensures At(Run(s, [Pick(el, computed), Propose(p, next), Exit]).page, el, p) == At(s.page, el, p) != At(original, el, p)
  {
    hide At, Step, Locked;
    p :| At(s.page, el, p) != At(original, el, p);
    var was := if p in computed then computed[p] else "";
    next := was + "x";
    NormalGrows(was);
    LeavingPutsTheSnapshotBack(s, el, computed, p, next);
  }

  ghost predicate ComesBack(s: State, el: Element, computed: map<Prop, string>, p: Prop, next: string, original: Page) {
    SamePage(Run(s, [Pick(el, computed), Propose(p, next), Exit]).page, original)
  }

  /** Which picks are safe, exactly: after any run of safe picks, picking an element
      keeps the promise that leaving gives the page back, whatever is proposed for
      it, if and only if it shows just what the page had there. */
  lemma PickIsSafeExactly(original: Page, events: seq<Event>, el: Element, computed: map<Prop, string>)
    requires Tidy(original) && AllAllowed(original, events)
    requires var s := Run(Injected(original), events); s.on && !s.cardOpen
    ensures var s := Run(Injected(original), events);
            TrueSnapshot(s.page, el, original) <==> forall p, next :: ComesBack(s, el, computed, p, next, original)
  {
    hide Step, Locked, Tidy, Faithful, TrueSnapshot, AllAllowed, At;
    var s := Run(Injected(original), events);
    DraftLock(original, events);
    RunIsFaithful(original, events);
    RunIsTidy(Injected(original), events);
    if TrueSnapshot(s.page, el, original) {
      forall p, next
        ensures ComesBack(s, el, computed, p, next, original)
      {
        SafePickComesBack(s, el, computed, p, next, original);
      }
    } else {
      var p, next := PickingUnderAPreviewSticks(s, el, computed, original);
      assert !ComesBack(s, el, computed, p, next, original);
    }
  }

  lemma SafePickComesBack(s: State, el: Element, computed: map<Prop, string>, p: Prop, next: string, original: Page)
    requires Tidy(original) && Faithful(s.items, s.page, original) && TrueSnapshot(s.page, el, original)
    ensures ComesBack(s, el, computed, p, next, original)
  {
    hide Step, Tidy, Faithful, TrueSnapshot;
    var a := Step(s, Pick(el, computed));
    StepIsFaithful(s, Pick(el, computed), original);
    StepIsFaithful(a, Propose(p, next), original);
    StepIsFaithful(Step(a, Propose(p, next)), Exit, original);
    ThreeSteps(s, Pick(el, computed), Propose(p, next), Exit);
  }

  lemma ThreeSteps(s: State, x: Event, y: Event, z: Event)
    ensures Run(s, [x, y, z]) == Step(Step(Step(s, x), y), z)
  {
    hide Step;
    var one, two, three := [x], [x, y], [x, y, z];
    assert one[..0] == [] && two[..1] == one && three[..2] == two;
    assert Run(s, one) == Step(Run(s, []), x);
    assert Run(s, two) == Step(Run(s, one), y);
  }

  lemma PickedIsLast(s: State, el: Element, computed: map<Prop, string>, p: Prop)
    requires Locked(s) && s.on && !s.cardOpen
    ensures var a, n := Step(s, Pick(el, computed)), |s.items|;
            && a.on && |a.items| == n + 1 && a.editing == Some(a.items[n].id)
            && Find(a.items, a.items[n].id) == Some(n)
            && a.items[n].el == el && a.items[n].computed == computed && Own(a.items[n], p) == At(s.page, el, p)
  {
    hide At;
    PickIsLocked(s, el, computed);
    FindLast(Step(s, Pick(el, computed)).items, s.lastId + 1);
    EveryProp(p);
  }

  lemma ProposedIsLast(a: State, p: Prop, next: string)
    requires a.on && a.items != [] && a.editing.Some? && Find(a.items, a.editing.value) == Some(|a.items| - 1)
    requires next != "" && !SameStyle(next, Computed(a.items[|a.items| - 1], p))
    ensures var b, last := Step(a, Propose(p, next)), |a.items| - 1;
            && |b.items| == |a.items| && b.items[last].el == a.items[last].el && p in b.items[last].edits
            && Own(b.items[last], p) == Own(a.items[last], p)
  {
    hide SameStyle, Put;
  }

  // Some annotation's proposal shows wherever there is one.
  ghost predicate Previewed(items: seq<Item>, page: Page, el: Element, p: Prop) {
    exists i :: 0 <= i < |items| && Edits(items[i], el, p) && At(page, el, p) == Style(items[i].edits[p], IMPORTANT)
  }

  // Item i's proposal for p is the only one on its element.
  ghost predicate Alone(items: seq<Item>, i: nat, p: Prop)
    requires i < |items|
  {
    forall j :: 0 <= j < |items| && j != i ==> !Edits(items[j], items[i].el, p)
  }

  /** Taking a proposal back in the card wipes another annotation's preview of
      the same property: what is still proposed still shows exactly when no
      other annotation proposes it. */
  lemma TakingBackWipesOthers(s: State, i: nat, p: Prop)
    requires i < |s.items| && Own(s.items[i], p).priority != IMPORTANT
    ensures var r, el := ApplyEdit(s, i, p, ""), s.items[i].el;
            (Edited(r.items, el, p) ==> Previewed(r.items, r.page, el, p)) <==> Alone(s.items, i, p)
  {
    var r, it := ApplyEdit(s, i, p, ""), s.items[i];
    AtPut(s.page, it.el, p, Own(it, p), it.el, p);
    assert At(r.page, it.el, p) == Reported(Own(it, p));
    assert forall j :: 0 <= j < |s.items| && j != i ==> r.items[j] == s.items[j];
    assert !Edits(r.items[i], it.el, p);
    if !Alone(s.items, i, p) {
      var j :| 0 <= j < |s.items| && j != i && Edits(s.items[j], it.el, p);
      assert Edits(r.items[j], it.el, p);
    }
  }

  /** Removing or cancelling an annotation does not: what another one still
      proposes shows. */
  lemma RestoringKeepsOthers(s: State, i: nat, p: Prop)
    requires i < |s.items| && p in s.items[i].edits
    requires forall j, q :: 0 <= j < |s.items| && q in s.items[j].edits ==> s.items[j].edits[q] != ""
    ensures var r, el := Restore(s, i), s.items[i].el;
            Edited(r.items, el, p) ==> Previewed(r.items, r.page, el, p)
  {
    var r, el := Restore(s, i), s.items[i].el;
    AtRestore(s, i, el, p);
    NotEdited(r.items, el, p);
    assert r.items == Cleared(s.items, i);
    var found := Editor(r.items, el, p);
    if found.Some? {
      assert r.items[found.value] == s.items[found.value];
    }
  }
}
