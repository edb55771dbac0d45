/** What the annotator owes the page and its user: the page comes back as it
    was found, and an open draft is never lost to a stray click. */
module AnnotateLaws {
  import opened Wrappers
  import opened Annotate

  // ---- Where a style is put back -------------------------------------------------

  // A declaration as the page would report it: no value, no declaration.
  function Reported(style: Style): Style {
    if style.value == "" then NO_STYLE else style
  }

  lemma AtPut(page: Page, el: Element, p: Prop, style: Style, e: Element, q: Prop)
    ensures At(Put(page, el, p, style), e, q) == if e == el && q == p then Reported(style) else At(page, e, q)
  {
  }

  lemma {:induction false} AtPutBackAll(items: seq<Item>, i: nat, page: Page, edits: map<Prop, string>, props: seq<Prop>,
                                        el: Element, p: Prop)
    requires i < |items|
    ensures At(PutBackAll(items, i, page, edits, props), el, p) ==
            if el != items[i].el || p !in edits || p !in props then At(page, el, p)
            else
              match Editor(items, el, p)
              case Some(j) => Reported(Style(items[j].edits[p], IMPORTANT))
              case None => Reported(Own(items[i], p))
  {
    if props != [] {
      hide At, Put, Editor, Own;
      var n := |props| - 1;
      var before := PutBackAll(items, i, page, edits, props[..n]);
      AtPutBackAll(items, i, page, edits, props[..n], el, p);
      assert p in props <==> p == props[n] || p in props[..n] by {
        assert props == props[..n] + [props[n]];
      }
      if props[n] in edits {
        match Editor(items, items[i].el, props[n])
        case Some(j) => AtPut(before, items[i].el, props[n], Style(items[j].edits[props[n]], IMPORTANT), el, p);
        case None => AtPut(before, items[i].el, props[n], Own(items[i], props[n]), el, p);
      }
    }
  }

  ghost predicate Edited(items: seq<Item>, el: Element, p: Prop) {
    exists i :: 0 <= i < |items| && Edits(items[i], el, p)
  }

  // Restoring one item: its proposals go, each to another item's proposal for
  // the same property of the element, else to what the item found there.
  lemma AtRestore(s: State, i: nat, el: Element, p: Prop)
    requires i < |s.items|
    ensures At(Restore(s, i).page, el, p) ==
            if !Edits(s.items[i], el, p) then At(s.page, el, p)
            else
              match Editor(Cleared(s.items, i), el, p)
              case Some(j) => Reported(Style(Cleared(s.items, i)[j].edits[p], IMPORTANT))
              case None => Reported(Own(s.items[i], p))
  {
    EveryProp(p);
    AtPutBackAll(Cleared(s.items, i), i, s.page, s.items[i].edits, PROPS, el, p);
  }

  lemma {:induction false} RestoreFirstItems(s: State, k: nat)
    requires k <= |s.items|
    ensures forall i :: 0 <= i < |s.items| ==>
              RestoreFirst(s, k).items[i] == if i < k then s.items[i].(edits := map[]) else s.items[i]
  {
    if k > 0 {
      RestoreFirstItems(s, k - 1);
    }
  }

  // The last of the first k items that edits the property.
  function LastEditor(items: seq<Item>, k: nat, el: Element, p: Prop): (r: Option<nat>)
    requires k <= |items|
    ensures r.Some? ==> r.value < k && Edits(items[r.value], el, p)
    ensures r.None? ==> forall i :: 0 <= i < k ==> !Edits(items[i], el, p)
  {
    if k == 0 then None
    else if Edits(items[k - 1], el, p) then Some(k - 1)
    else LastEditor(items, k - 1, el, p)
  }

  lemma {:induction false} AtRestoreFirst(s: State, k: nat, el: Element, p: Prop)
    requires k <= |s.items| && forall i :: k <= i < |s.items| ==> !Edits(s.items[i], el, p)
    ensures At(RestoreFirst(s, k).page, el, p) ==
            match LastEditor(s.items, k, el, p)
            case Some(i) => Reported(Own(s.items[i], p))
            case None => At(s.page, el, p)
  {
    hide Restore, At, Own, RestoreFirst;
    if k > 0 {
      var before := RestoreFirst(s, k - 1);
      RestoreFirstItems(s, k - 1);
      RestoreFirstStep(s, k);
      AtRestore(before, k - 1, el, p);
      if !Edits(s.items[k - 1], el, p) {
        AtRestoreFirst(s, k - 1, el, p);
      } else {
        NoEditorLeft(before.items, k - 1, el, p);
        OwnOfCleared(s.items[k - 1], before.items[k - 1], p);
      }
    } else {
      RestoreNone(s);
    }
  }

  lemma RestoreFirstStep(s: State, k: nat)
    requires 0 < k <= |s.items|
    ensures RestoreFirst(s, k) == Restore(RestoreFirst(s, k - 1), k - 1)
  {
  }

  lemma RestoreNone(s: State)
    ensures RestoreFirst(s, 0) == s
  {
  }

  lemma OwnOfCleared(a: Item, b: Item, p: Prop)
    requires a.inline == b.inline
    ensures Own(a, p) == Own(b, p)
  {
  }

  lemma NoEditorLeft(items: seq<Item>, k: nat, el: Element, p: Prop)
    requires k < |items| && forall i :: 0 <= i < |items| && i != k ==> !Edits(items[i], el, p)
    ensures Editor(Cleared(items, k), el, p).None?
  {
  }

  /** Leaving the page puts every property back to what the last annotation that
      still proposes it had found there, and touches no other property. */
  lemma AtEmpty(s: State, el: Element, p: Prop)
    ensures At(Empty(s).page, el, p) ==
            match LastEditor(s.items, |s.items|, el, p)
            case Some(i) => Reported(Own(s.items[i], p))
            case None => At(s.page, el, p)
  {
    AtRestoreFirst(CloseCard(CloseMenu(s)), |s.items|, el, p);
  }

  // ---- The page comes back ---------------------------------------------------------

  ghost predicate Tidy(page: Page) {
    forall el, p :: Reported(At(page, el, p)) == At(page, el, p)
  }

  ghost predicate SamePage(page: Page, original: Page) {
    forall el, p :: At(page, el, p) == At(original, el, p)
  }

  // What nobody proposes is as the page had it.
  ghost predicate Untouched(items: seq<Item>, page: Page, original: Page) {
    forall el, p :: !Edited(items, el, p) ==> At(page, el, p) == At(original, el, p)
  }

  // What an annotation found on its element is what the page had there.
  ghost predicate Knows(it: Item, original: Page) {
    forall p :: Own(it, p) == At(original, it.el, p)
  }

  ghost predicate Faithful(items: seq<Item>, page: Page, original: Page) {
    Untouched(items, page, original) && forall i :: 0 <= i < |items| ==> Knows(items[i], original)
  }

  // Renumbering, retitling or saving items does not matter to the page.
  ghost predicate SameMarks(a: seq<Item>, b: seq<Item>) {
    && |a| == |b|
    && forall i :: 0 <= i < |a| ==> a[i].el == b[i].el && a[i].edits == b[i].edits && a[i].inline == b[i].inline
  }

  lemma EditedIsMarks(a: seq<Item>, b: seq<Item>, el: Element, p: Prop)
    requires SameMarks(a, b)
    ensures Edited(a, el, p) <==> Edited(b, el, p)
  {
    if i :| 0 <= i < |a| && Edits(a[i], el, p) {
      assert Edits(b[i], el, p);
    }
    if i :| 0 <= i < |b| && Edits(b[i], el, p) {
      assert Edits(a[i], el, p);
    }
  }

  lemma KnowsByMarks(a: Item, b: Item, original: Page)
    requires a.el == b.el && a.inline == b.inline && Knows(a, original)
    ensures Knows(b, original)
  {
    forall p
      ensures Own(b, p) == At(original, b.el, p)
    {
      assert Own(a, p) == At(original, a.el, p);
    }
  }

  lemma FaithfulToMarks(a: seq<Item>, b: seq<Item>, page: Page, original: Page)
    requires SameMarks(a, b) && Faithful(a, page, original)
    ensures Faithful(b, page, original)
  {
    hide At, Edited, Knows;
    forall el, p
      ensures Edited(a, el, p) <==> Edited(b, el, p)
    {
      EditedIsMarks(a, b, el, p);
    }
    forall i | 0 <= i < |b|
      ensures Knows(b[i], original)
    {
      KnowsByMarks(a[i], b[i], original);
    }
  }

  // Changing one item matters only to the properties it proposes differently.
  lemma EditedUpTo(items: seq<Item>, i: nat, it: Item, el: Element, p: Prop)
    requires i < |items| && (Edits(items[i], el, p) <==> Edits(it, el, p))
    ensures Edited(items[i := it], el, p) <==> Edited(items, el, p)
  {
    hide Edits;
    var after := items[i := it];
    if j :| 0 <= j < |items| && Edits(items[j], el, p) {
      assert Edits(after[j], el, p);
    }
    if j :| 0 <= j < |after| && Edits(after[j], el, p) {
      assert Edits(items[j], el, p);
    }
  }

  lemma RestoreIsFaithful(s: State, i: nat, original: Page)
    requires i < |s.items| && Tidy(original) && Faithful(s.items, s.page, original)
    ensures Faithful(Restore(s, i).items, Restore(s, i).page, original)
    ensures Restore(s, i).items == Cleared(s.items, i)
  {
    var r := Restore(s, i);
    assert r.items == Cleared(s.items, i);
    hide Restore, At, Own, Edited;
    forall el, p | !Edited(r.items, el, p)
      ensures At(r.page, el, p) == At(original, el, p)
    {
      AtRestore(s, i, el, p);
      if Edits(s.items[i], el, p) {
        NotEdited(r.items, el, p);
        assert Own(s.items[i], p) == At(original, el, p);
      } else {
        EditedUpTo(s.items, i, s.items[i].(edits := map[]), el, p);
      }
    }
    forall k | 0 <= k < |r.items|
      ensures Knows(r.items[k], original)
    {
      KnowsByMarks(s.items[k], r.items[k], original);
    }
  }

  lemma NotEdited(items: seq<Item>, el: Element, p: Prop)
    ensures Edited(items, el, p) <==> Editor(items, el, p).Some?
  {
  }

  // An item without proposals can go.
  lemma DropIsFaithful(items: seq<Item>, i: nat, page: Page, original: Page)
    requires i < |items| && items[i].edits == map[] && Faithful(items, page, original)
    ensures Faithful(items[..i] + items[i + 1..], page, original)
  {
    hide At, Own, Knows;
    var rest := items[..i] + items[i + 1..];
    forall el, p | Edited(items, el, p)
      ensures Edited(rest, el, p)
    {
      var j :| 0 <= j < |items| && Edits(items[j], el, p);
      assert rest[if j < i then j else j - 1] == items[j];
    }
    assert forall k :: 0 <= k < |rest| ==> rest[k] == items[if k < i then k else k + 1];
  }

  lemma RemoveIsFaithful(s: State, i: nat, original: Page)
    requires i < |s.items| && Tidy(original) && Faithful(s.items, s.page, original)
    ensures Faithful(Remove(s, i).items, Remove(s, i).page, original)
  {
    hide Faithful, Tidy;
    var id := s.items[i].id;
    var a := if s.editing == Some(id) then CloseCard(s) else s;
    var b := if a.menuFor == Some(id) then CloseMenu(a) else a;
    RestoreIsFaithful(b, i, original);
    var c := Restore(b, i);
    DropIsFaithful(c.items, i, c.page, original);
    FaithfulToMarks(c.items[..i] + c.items[i + 1..], Remove(s, i).items, c.page, original);
  }

  lemma {:induction false} RestoreFirstIsFaithful(s: State, k: nat, original: Page)
    requires k <= |s.items| && Tidy(original) && Faithful(s.items, s.page, original)
    ensures Faithful(RestoreFirst(s, k).items, RestoreFirst(s, k).page, original)
  {
    if k > 0 {
      hide Faithful, Tidy, Restore;
      RestoreFirstIsFaithful(s, k - 1, original);
      RestoreIsFaithful(RestoreFirst(s, k - 1), k - 1, original);
    }
  }

  lemma EmptyIsFaithful(s: State, original: Page)
    requires Tidy(original) && Faithful(s.items, s.page, original)
    ensures SamePage(Empty(s).page, original)
    ensures Faithful(Empty(s).items, Empty(s).page, original)
  {
    var t := CloseCard(CloseMenu(s));
    var r := RestoreAll(t);
    RestoreFirstIsFaithful(t, |t.items|, original);
    RestoreFirstItems(t, |t.items|);
    forall el, p
      ensures At(Empty(s).page, el, p) == At(original, el, p)
    {
      assert !Edited(r.items, el, p);
    }
  }

  // Changing one proposal of one item, and that property of its element,
  // concerns nothing else.
  lemma PutElsewhere(items: seq<Item>, i: nat, it: Item, page: Page, p: Prop, style: Style, el: Element, q: Prop)
    requires i < |items| && it.el == items[i].el && (el != it.el || q != p)
    requires forall r :: r != p ==> (r in it.edits <==> r in items[i].edits)
    ensures Edited(items[i := it], el, q) <==> Edited(items, el, q)
    ensures At(Put(page, it.el, p, style), el, q) == At(page, el, q)
  {
    EditedUpTo(items, i, it, el, q);
    AtPut(page, it.el, p, style, el, q);
  }

  lemma EditsIsEdited(items: seq<Item>, i: nat, el: Element, p: Prop)
    requires i < |items| && Edits(items[i], el, p)
    ensures Edited(items, el, p)
  {
  }

  // A proposal, or taking one back, on an item that knows the page.
  lemma ProposalIsFaithful(items: seq<Item>, i: nat, it: Item, page: Page, p: Prop, style: Style, original: Page)
    requires i < |items| && Tidy(original) && Faithful(items, page, original)
    requires it.el == items[i].el && it.inline == items[i].inline
    requires forall r :: r != p ==> (r in it.edits <==> r in items[i].edits)
    requires p in it.edits || style == Own(items[i], p)
    ensures Faithful(items[i := it], Put(page, it.el, p, style), original)
  {
    hide At, Put, Own, Edited;
    var after := items[i := it];
    forall el, q | !Edited(after, el, q)
      ensures At(Put(page, it.el, p, style), el, q) == At(original, el, q)
    {
      if el != it.el || q != p {
        PutElsewhere(items, i, it, page, p, style, el, q);
      } else {
        AtPut(page, it.el, p, style, el, q);
        if p in it.edits {
          EditsIsEdited(after, i, el, q);
        }
        assert Own(items[i], p) == At(original, el, q);
      }
    }
    KnowsByMarks(items[i], it, original);
  }

  lemma ApplyEditIsFaithful(s: State, i: nat, p: Prop, next: string, original: Page)
    requires i < |s.items| && Tidy(original) && Faithful(s.items, s.page, original)
    ensures Faithful(ApplyEdit(s, i, p, next).items, ApplyEdit(s, i, p, next).page, original)
  {
    hide SameStyle, Faithful, Tidy, Own, Put;
    var it := s.items[i];
    ProposalIsFaithful(s.items, i, it.(edits := it.edits - {p}), s.page, p, Own(it, p), original);
    ProposalIsFaithful(s.items, i, it.(edits := it.edits[p := next]), s.page, p, Style(next, IMPORTANT), original);
  }

  // No live proposal on the element from any annotation.
  ghost predicate Calm(s: State, el: Element) {
    forall i :: 0 <= i < |s.items| && s.items[i].el == el ==> s.items[i].edits == map[]
  }

  // What a pick would find on the element is what the page had there.
  ghost predicate TrueSnapshot(page: Page, el: Element, original: Page) {
    forall p :: At(page, el, p) == At(original, el, p)
  }

  lemma CalmPicksAreTrue(s: State, el: Element, original: Page)
    requires Faithful(s.items, s.page, original) && Calm(s, el)
    ensures TrueSnapshot(s.page, el, original)
  {
    hide At;
    forall p
      ensures At(s.page, el, p) == At(original, el, p)
    {
      CalmIsUnedited(s, el, p);
    }
  }

  lemma PickIsFaithful(s: State, el: Element, computed: map<Prop, string>, original: Page)
    requires Faithful(s.items, s.page, original) && TrueSnapshot(s.page, el, original)
    ensures Faithful(PickNow(s, el, computed).items, PickNow(s, el, computed).page, original)
  {
    hide Edited, At;
    var it := Item(s.lastId + 1, |s.items| + 1, el, computed, InlineOf(s.page, el), map[], "", false);
    var items := s.items + [it];
    forall p
      ensures Own(it, p) == At(original, el, p)
    {
      EveryProp(p);
    }
    AppendIsFaithful(s.items, it, s.page, original);
    FaithfulToMarks(items, Numbered(items), s.page, original);
  }

  lemma CalmIsUnedited(s: State, el: Element, p: Prop)
    requires Calm(s, el)
    ensures !Edited(s.items, el, p)
  {
  }

  lemma AppendIsFaithful(items: seq<Item>, it: Item, page: Page, original: Page)
    requires Faithful(items, page, original) && it.edits == map[] && Knows(it, original)
    ensures Faithful(items + [it], page, original)
  {
    hide At, Own, Knows;
    forall e, p | Edited(items, e, p)
      ensures Edited(items + [it], e, p)
    {
      var i :| 0 <= i < |items| && Edits(items[i], e, p);
      assert (items + [it])[i] == items[i];
    }
  }

  // The page's owner may be surprised only by a pick that takes a preview for the
  // page's own style.
  ghost predicate Allowed(s: State, e: Event, original: Page) {
    e.Pick? && s.on && !s.cardOpen ==> TrueSnapshot(s.page, e.el, original)
  }

  lemma CancelIsFaithful(s: State, original: Page)
    requires Tidy(original) && Faithful(s.items, s.page, original)
    ensures Faithful(CancelCard(s).items, CancelCard(s).page, original)
  {
    hide Faithful, Tidy, Restore, Remove;
    var found := if s.editing.Some? then Find(s.items, s.editing.value) else None;
    if found.Some? {
      RestoreIsFaithful(s, found.value, original);
      RemoveIsFaithful(CloseCard(s), found.value, original);
    }
  }

  lemma StepIsFaithful(s: State, e: Event, original: Page)
    requires Tidy(original) && Faithful(s.items, s.page, original) && Allowed(s, e, original)
    ensures Faithful(Step(s, e).items, Step(s, e).page, original)
    ensures e.Exit? || e.Clear? ==> SamePage(Step(s, e).page, original)
  {
    hide Faithful, Tidy, Remove, ApplyEdit, Empty, CancelCard, PickNow, At;
    EmptyIsFaithful(s, original);
    EmptyIsFaithful(s.(on := false), original);
    CancelIsFaithful(s, original);
    match e
    case Enter => FaithfulToMarks(s.items, Numbered(s.items), s.page, original);
    case DropLast => if s.items != [] { RemoveIsFaithful(s, |s.items| - 1, original); }
    case Pick(el, computed) => if s.on && !s.cardOpen { PickIsFaithful(s, el, computed, original); }
    case Save(comment) => FaithfulToMarks(s.items, Step(s, e).items, s.page, original);
    case Trash => if s.editing.Some? { RemoveByIdIsFaithful(s, s.editing.value, original); }
    case ClickRemove(id) => RemoveByIdIsFaithful(s, id, original);
    case Menu(choice) => if s.menuFor.Some? { RemoveByIdIsFaithful(CloseMenu(s), s.menuFor.value, original); }
    case Propose(prop, next) =>
      var found := if s.on && s.editing.Some? then Find(s.items, s.editing.value) else None;
      if found.Some? { ApplyEditIsFaithful(s, found.value, prop, next, original); }
    case _ =>
  }

  lemma RemoveByIdIsFaithful(s: State, id: nat, original: Page)
    requires Tidy(original) && Faithful(s.items, s.page, original)
    ensures Faithful(RemoveById(s, id).items, RemoveById(s, id).page, original)
  {
    hide Faithful, Tidy, Remove;
    if Find(s.items, id).Some? {
      RemoveIsFaithful(s, Find(s.items, id).value, original);
    }
  }

  ghost predicate AllAllowed(original: Page, events: seq<Event>) {
    forall k :: 0 <= k < |events| ==> Allowed(Run(Injected(original), events[..k]), events[k], original)
  }

  lemma {:induction false} RunIsFaithful(original: Page, events: seq<Event>)
    requires Tidy(original) && AllAllowed(original, events)
    ensures var s := Run(Injected(original), events); Faithful(s.items, s.page, original)
  {
    if events != [] {
      hide Faithful, Tidy, Step;
      var n := |events| - 1;
      var rest := events[..n];
      assert forall k :: 0 <= k < n ==> rest[..k] == events[..k];
      RunIsFaithful(original, rest);
      StepIsFaithful(Run(Injected(original), rest), events[n], original);
    }
  }

  /** Leaving gives the page back: after any run in which every pick finds the
      element as the page had it, `clear` and `exit` leave every property of every
      element as it was found; and at any moment, so is every property that no
      annotation proposes. */
  lemma PageComesBack(original: Page, events: seq<Event>, leave: Event)
    requires Tidy(original) && AllAllowed(original, events) && (leave.Exit? || leave.Clear?)
    ensures var s := Run(Injected(original), events);
            && (forall el, p :: !Edited(s.items, el, p) ==> At(s.page, el, p) == At(original, el, p))
            && SamePage(Step(s, leave).page, original)
  {
    hide Step;
    RunIsFaithful(original, events);
    StepIsFaithful(Run(Injected(original), events), leave, original);
  }

  // ---- Declarations without a value never appear -----------------------------------

  lemma RestoreIsTidy(s: State, i: nat)
    requires i < |s.items| && Tidy(s.page)
    ensures Tidy(Restore(s, i).page)
  {
    hide At, Restore, Own, Editor, Cleared;
    forall el, p
      ensures Reported(At(Restore(s, i).page, el, p)) == At(Restore(s, i).page, el, p)
    {
      AtRestore(s, i, el, p);
    }
  }

  lemma RemoveIsTidy(s: State, i: nat)
    requires i < |s.items| && Tidy(s.page)
    ensures Tidy(Remove(s, i).page)
  {
    hide Tidy, Restore, Numbered;
    var id := s.items[i].id;
    var a := if s.editing == Some(id) then CloseCard(s) else s;
    RestoreIsTidy(if a.menuFor == Some(id) then CloseMenu(a) else a, i);
  }

  lemma EmptyIsTidy(s: State)
    requires Tidy(s.page)
    ensures Tidy(Empty(s).page)
  {
    hide At, Empty, Own;
    forall el, p
      ensures Reported(At(Empty(s).page, el, p)) == At(Empty(s).page, el, p)
    {
      AtEmpty(s, el, p);
    }
  }

  lemma PutIsTidy(page: Page, el: Element, p: Prop, style: Style)
    requires Tidy(page)
    ensures Tidy(Put(page, el, p, style))
  {
    hide At, Put;
    forall e, q
      ensures Reported(At(Put(page, el, p, style), e, q)) == At(Put(page, el, p, style), e, q)
    {
      AtPut(page, el, p, style, e, q);
    }
  }

  lemma RemoveByIdIsTidy(s: State, id: nat)
    requires Tidy(s.page)
    ensures Tidy(RemoveById(s, id).page)
  {
    hide Tidy, Remove;
    if Find(s.items, id).Some? {
      RemoveIsTidy(s, Find(s.items, id).value);
    }
  }

  lemma CancelIsTidy(s: State)
    requires Tidy(s.page)
    ensures Tidy(CancelCard(s).page)
  {
    hide Tidy, Restore, Remove;
    var found := if s.editing.Some? then Find(s.items, s.editing.value) else None;
    if found.Some? {
      RestoreIsTidy(s, found.value);
      RemoveIsTidy(CloseCard(s), found.value);
    }
  }

  lemma StepIsTidy(s: State, e: Event)
    requires Tidy(s.page)
    ensures Tidy(Step(s, e).page)
  {
    hide Tidy, Remove, Empty, CancelCard, Put, SameStyle, Own;
    EmptyIsTidy(s);
    EmptyIsTidy(s.(on := false));
    CancelIsTidy(s);
    match e
    case DropLast => if s.items != [] { RemoveIsTidy(s, |s.items| - 1); }
    case Trash => if s.editing.Some? { RemoveByIdIsTidy(s, s.editing.value); }
    case ClickRemove(id) => RemoveByIdIsTidy(s, id);
    case Menu(choice) => if s.menuFor.Some? { RemoveByIdIsTidy(CloseMenu(s), s.menuFor.value); }
    case Propose(prop, next) =>
      var found := if s.on && s.editing.Some? then Find(s.items, s.editing.value) else None;
      if found.Some? {
        var it := s.items[found.value];
        PutIsTidy(s.page, it.el, prop, Own(it, prop));
        PutIsTidy(s.page, it.el, prop, Style(next, IMPORTANT));
      }
    case _ =>
  }

  lemma {:induction false} RunIsTidy(s: State, events: seq<Event>)
    requires Tidy(s.page)
    ensures Tidy(Run(s, events).page)
  {
    if events != [] {
      hide Tidy, Step;
      RunIsTidy(s, events[..|events| - 1]);
      StepIsTidy(Run(s, events[..|events| - 1]), events[|events| - 1]);
    }
  }
}
