/** What the handlers do to the notes: which events add and drop annotations, whose
    card they open, and what each annotation holds afterwards. */
module AnnotateNotes {
  import opened Wrappers
  import opened Annotate
  import opened AnnotateLaws
  import opened AnnotateLocks

  function Ids(items: seq<Item>): (r: seq<nat>)
    ensures |r| == |items| && forall i :: 0 <= i < |items| ==> r[i] == items[i].id
  {
    seq(|items|, i requires 0 <= i < |items| => items[i].id)
  }

  // The ids but one.
  function Without(ids: seq<nat>, id: nat): seq<nat> {
    if ids == [] then []
    else
      var n := |ids| - 1;
      Without(ids[..n], id) + if ids[n] == id then [] else [ids[n]]
  }

  lemma WithoutLast(ids: seq<nat>, id: nat)
    requires ids != []
    ensures var n := |ids| - 1; Without(ids, id) == Without(ids[..n], id) + if ids[n] == id then [] else [ids[n]]
  {
  }

  lemma {:induction false} WithoutIsThere(ids: seq<nat>, i: nat)
    requires i < |ids| && forall j, k :: 0 <= j < k < |ids| ==> ids[j] != ids[k]
    ensures Without(ids, ids[i]) == ids[..i] + ids[i + 1..]
  {
    var n := |ids| - 1;
    WithoutLast(ids, ids[i]);
    if i < n {
      WithoutIsThere(ids[..n], i);
      hide Without;
      assert ids[..n][..i] == ids[..i] && ids[..n][i + 1..] + [ids[n]] == ids[i + 1..];
    } else {
      WithoutIsNot(ids[..n], ids[n]);
      assert ids[..i] + ids[i + 1..] == ids[..n];
    }
  }

  lemma {:induction false} WithoutIsNot(ids: seq<nat>, id: nat)
    requires id !in ids
    ensures Without(ids, id) == ids
  {
    if ids != [] {
      WithoutIsNot(ids[..|ids| - 1], id);
    }
  }

  // ---- Which annotations there are --------------------------------------------------------

  // The draft: an annotation whose card is open and that was never saved.
  ghost predicate Draft(s: State) {
    s.editing.Some? && exists i :: 0 <= i < |s.items| && s.items[i].id == s.editing.value && !s.items[i].saved
  }

  // The ids but the one named, if one is.
  ghost function Dropping(ids: seq<nat>, id: Option<nat>): seq<nat> {
    if id.Some? then Without(ids, id.value) else ids
  }

  // The annotations left by an event: a pick adds one under a new id; undo drops the
  // last; the trash, a chip's cross and the menu's remove drop the one they name;
  // cancelling drops the draft; clearing and leaving drop all; nothing else does.
  ghost function IdsAfter(s: State, e: Event): seq<nat> {
    var ids := Ids(s.items);
    var cancelled := if Draft(s) then Without(ids, s.editing.value) else ids;
    match e
    case Pick(_, _) => if s.on && s.editing.None? then ids + [s.lastId + 1] else ids
    case DropLast => if ids == [] then [] else ids[..|ids| - 1]
    case Trash => Dropping(ids, s.editing)
    case ClickRemove(id) => Without(ids, id)
    case Menu(choice) => if choice.RemoveIt? then Dropping(ids, s.menuFor) else ids
    case Cancel => cancelled
    case Escape => if s.menuFor.Some? then ids else if s.editing.Some? then cancelled else []
    case EscapeInOverlay => if s.menuFor.Some? then ids else cancelled
    case Exit => []
    case Clear => []
    case _ => ids
  }

  // The card left open by an event: a pick opens the new annotation's, a pin its own,
  // the menu's edit that of the one it is for; what drops an annotation closes its
  // card, and saving, cancelling, clearing and leaving close any.
  ghost function CardAfter(s: State, e: Event): Option<nat> {
    match e
    case Pick(_, _) => if s.on && s.editing.None? then Some(s.lastId + 1) else s.editing
    case ClickPin(id) => if s.editing.None? && Live(s.items, id) then Some(id) else s.editing
    case Menu(choice) => if choice.Edit? && s.menuFor.Some? then s.menuFor else s.editing
    case DropLast => if s.items != [] && s.editing == Some(s.items[|s.items| - 1].id) then None else s.editing
    case ClickRemove(id) => if s.editing == Some(id) then None else s.editing
    case Escape => if s.menuFor.Some? then s.editing else None
    case EscapeInOverlay => if s.menuFor.Some? then s.editing else None
    case Save(_) => None
    case Cancel => None
    case Trash => None
    case Exit => None
    case Clear => None
    case _ => s.editing
  }

  // The menu left open by an event.
  ghost function MenuAfter(s: State, e: Event): Option<nat> {
    match e
    case ClickDots(id) => if s.editing.None? && Live(s.items, id) then Some(id) else s.menuFor
    case Pick(_, _) => if s.on && s.editing.None? then None else s.menuFor
    case ClickPin(id) => if s.editing.None? && Live(s.items, id) then None else s.menuFor
    case DropLast => if s.items != [] && s.menuFor == Some(s.items[|s.items| - 1].id) then None else s.menuFor
    case ClickRemove(id) => if s.menuFor == Some(id) then None else s.menuFor
    case Menu(_) => None
    case ClickPage => None
    case Escape => None
    case EscapeInOverlay => None
    case Exit => None
    case Clear => None
    case _ => s.menuFor
  }

  lemma InOrderIsDistinct(s: State)
    requires InOrder(s.items, s.lastId)
    ensures forall i, j :: 0 <= i < j < |s.items| ==> Ids(s.items)[i] != Ids(s.items)[j]
  {
  }

  // Removing an annotation leaves the others as they are, renumbered.
  lemma RemovedItems(s: State, i: nat)
    requires i < |s.items|
    ensures Remove(s, i).items == Numbered(s.items[..i] + s.items[i + 1..])
    ensures Remove(s, i) == s.(items := Remove(s, i).items, page := Remove(s, i).page,
                               editing := if s.editing == Some(s.items[i].id) then None else s.editing,
                               cardOpen := s.cardOpen && s.editing != Some(s.items[i].id),
                               menuFor := if s.menuFor == Some(s.items[i].id) then None else s.menuFor,
                               menuOpen := s.menuOpen && s.menuFor != Some(s.items[i].id))
  {
    hide PutBackAll;
    var cleared := Cleared(s.items, i);
    assert cleared[..i] + cleared[i + 1..] == s.items[..i] + s.items[i + 1..];
  }

  lemma RemovedIds(s: State, i: nat)
    requires i < |s.items| && InOrder(s.items, s.lastId)
    ensures Ids(Remove(s, i).items) == Without(Ids(s.items), s.items[i].id)
  {
    RemovedItems(s, i);
    InOrderIsDistinct(s);
    WithoutIsThere(Ids(s.items), i);
    hide Remove;
    var rest := s.items[..i] + s.items[i + 1..];
    assert Ids(Numbered(rest)) == Ids(s.items)[..i] + Ids(s.items)[i + 1..];
  }

  lemma RemovedById(s: State, id: nat)
    requires Locked(s)
    ensures Ids(RemoveById(s, id).items) == Without(Ids(s.items), id)
    ensures RemoveById(s, id).editing == if s.editing == Some(id) then None else s.editing
    ensures RemoveById(s, id).menuFor == if s.menuFor == Some(id) then None else s.menuFor
  {
    hide Remove, Ids;
    FoundIsLive(s.items, id);
    if Find(s.items, id).Some? {
      var i := Find(s.items, id).value;
      RemovedItems(s, i);
      RemovedIds(s, i);
    } else {
      NotLiveIds(s.items, id);
      WithoutIsNot(Ids(s.items), id);
    }
  }

  lemma NotLiveIds(items: seq<Item>, id: nat)
    requires !Live(items, id)
    ensures id !in Ids(items)
  {
  }

  lemma NumberedIds(items: seq<Item>)
    ensures Ids(Numbered(items)) == Ids(items)
  {
  }

  lemma CancelledIds(s: State)
    requires Locked(s)
    ensures Ids(CancelCard(s).items) == if Draft(s) then Without(Ids(s.items), s.editing.value) else Ids(s.items)
    ensures CancelCard(s).editing == None
    ensures s.editing.Some? || CancelCard(s).menuFor == s.menuFor
    ensures s.editing.Some? ==> CancelCard(s).menuFor == None
  {
    hide Remove, Ids;
    if s.editing.Some? {
      FoundIsLive(s.items, s.editing.value);
      var i := Find(s.items, s.editing.value).value;
      DraftIs(s, i);
      if s.items[i].saved {
        assert Ids(Restore(s, i).items) == Ids(s.items) by { ClearedIds(s.items, i); }
      } else {
        RemovedItems(CloseCard(s), i);
        RemovedIds(CloseCard(s), i);
      }
    }
  }

  lemma ClearedIds(items: seq<Item>, i: nat)
    requires i < |items|
    ensures Ids(Cleared(items, i)) == Ids(items)
  {
  }

  lemma DraftIs(s: State, i: nat)
    requires Locked(s) && i < |s.items| && s.editing == Some(s.items[i].id)
    ensures Draft(s) <==> !s.items[i].saved
  {
    assert forall j :: 0 <= j < |s.items| && s.items[j].id == s.items[i].id ==> j == i;
  }

  lemma EmptiedIs(s: State)
    ensures Ids([]) == [] && Empty(s).items == [] && Empty(s).editing == None && Empty(s).menuFor == None && Empty(s).on == s.on
  {
  }

  lemma NothingWhileOff(s: State)
    requires Locked(s) && !s.on
    ensures s.items == [] && s.editing == None && s.menuFor == None && !Draft(s)
  {
  }

  /** Which annotations there are after any event, whose card is open, and whose menu:
      from any state the annotator can be in. */
  lemma WhoIsLeft(s: State, e: Event)
    requires Locked(s)
    ensures Ids(Step(s, e).items) == IdsAfter(s, e)
    ensures Step(s, e).editing == CardAfter(s, e)
    ensures Step(s, e).menuFor == MenuAfter(s, e)
    ensures Step(s, e).on == (e.Enter? || (s.on && !e.Exit? && !(e.Escape? && s.menuFor.None? && s.editing.None?)))
  {
    hide Remove, ApplyEdit, Empty, CancelCard, Numbered, Ids, Live, InOrder, OneDraft, InlineOf, Draft, RemoveById, Without;
    EmptiedIs(s);
    EmptiedIs(s.(on := false));
    CancelledIds(s);
    if !s.on { NothingWhileOff(s); }
    match e
    case Enter => NumberedIds(s.items);
    case DropLast => if s.items != [] { DroppedLast(s); }
    case Pick(el, computed) => if s.on && !s.cardOpen { PickedIds(s, el, computed); }
    case Save(comment) =>
      if s.editing.Some? { FoundIsLive(s.items, s.editing.value); }
      SavedIds(s, comment);
    case Trash => if s.editing.Some? { RemovedById(s, s.editing.value); KeepsOn(s, s.editing.value); }
    case ClickPin(id) => FoundIsLive(s.items, id);
    case ClickDots(id) => FoundIsLive(s.items, id);
    case ClickRemove(id) => RemovedById(s, id); KeepsOn(s, id);
    case Menu(choice) =>
      if s.menuFor.Some? { RemovedById(CloseMenu(s), s.menuFor.value); KeepsOn(CloseMenu(s), s.menuFor.value); }
    case Propose(prop, next) => ProposedIds(s, prop, next);
    case Escape => CancelKeepsOn(s);
    case EscapeInOverlay => CancelKeepsOn(s);
    case Cancel => CancelKeepsOn(s);
    case _ =>
  }

  lemma KeepsOn(s: State, id: nat)
    ensures RemoveById(s, id).on == s.on
  {
  }

  lemma CancelKeepsOn(s: State)
    ensures CancelCard(s).on == s.on
  {
  }

  lemma DroppedLast(s: State)
    requires Locked(s) && s.items != []
    ensures var n := |s.items| - 1;
            && Ids(Remove(s, n).items) == Ids(s.items)[..n]
            && Remove(s, n).on == s.on
            && Remove(s, n).editing == (if s.editing == Some(s.items[n].id) then None else s.editing)
            && Remove(s, n).menuFor == (if s.menuFor == Some(s.items[n].id) then None else s.menuFor)
  {
    var n := |s.items| - 1;
    RemovedItems(s, n);
    hide Remove;
    assert s.items[..n] + s.items[n + 1..] == s.items[..n];
    assert Ids(Numbered(s.items[..n])) == Ids(s.items)[..n];
  }

  lemma PickedIds(s: State, el: Element, computed: map<Prop, string>)
    ensures Ids(PickNow(s, el, computed).items) == Ids(s.items) + [s.lastId + 1]
  {
    hide InlineOf;
  }

  lemma SavedIds(s: State, comment: string)
    ensures Ids(Step(s, Save(comment)).items) == Ids(s.items)
  {
    hide Numbered;
    var found := if s.on && s.editing.Some? then Find(s.items, s.editing.value) else None;
    if found.Some? {
      var items := s.items[found.value := s.items[found.value].(comment := comment, saved := true)];
      assert Ids(items) == Ids(s.items);
      NumberedIds(items);
    }
  }

  lemma ProposedIds(s: State, prop: Prop, next: string)
    ensures var t := Step(s, Propose(prop, next));
            Ids(t.items) == Ids(s.items) && t == s.(items := t.items, page := t.page)
  {
    hide SameStyle, Put;
  }

  // ---- What each annotation holds ---------------------------------------------------------

  ghost predicate SavesNote(s: State, e: Event, id: nat) {
    e.Save? && s.editing == Some(id)
  }

  // The proposals an annotation holds after an event: a proposal in its card adds,
  // changes or takes back one, and cancelling its card drops them.
  ghost function EditsAfter(s: State, e: Event, it: Item): map<Prop, string> {
    if s.editing != Some(it.id) then it.edits
    else
      match e
      case Propose(p, next) =>
        if next == "" || SameStyle(next, Computed(it, p)) then it.edits - {p} else it.edits[p := next]
      case Cancel => map[]
      case Escape => map[]
      case EscapeInOverlay => map[]
      case _ => it.edits
  }

  // An annotation after an event, at its new place.
  ghost function NoteAfter(s: State, e: Event, it: Item, place: nat): Item {
    var saves := SavesNote(s, e, it.id);
    it.(n := place + 1, edits := EditsAfter(s, e, it), saved := it.saved || saves,
        comment := if saves then e.comment else it.comment)
  }

  // The annotations of one list that are still in another.
  ghost predicate StillThere(a: seq<Item>, b: seq<Item>, s: State, e: Event) {
    forall i, j :: 0 <= i < |a| && 0 <= j < |b| && a[i].id == b[j].id ==> b[j] == NoteAfter(s, e, a[i], j)
  }

  lemma AllUnchanged(s: State, e: Event, after: seq<Item>)
    requires InOrder(s.items, s.lastId) && after == Numbered(s.items)
    requires forall i :: 0 <= i < |s.items| ==> EditsAfter(s, e, s.items[i]) == s.items[i].edits && !SavesNote(s, e, s.items[i].id)
    ensures StillThere(s.items, after, s, e)
  {
    forall i, j | 0 <= i < |s.items| && 0 <= j < |after| && s.items[i].id == after[j].id
      ensures after[j] == NoteAfter(s, e, s.items[i], j)
    {
      assert i == j;
    }
  }

  lemma AllButOne(s: State, e: Event, k: nat)
    requires InOrder(s.items, s.lastId) && k < |s.items|
    requires forall i :: 0 <= i < |s.items| && i != k ==>
               EditsAfter(s, e, s.items[i]) == s.items[i].edits && !SavesNote(s, e, s.items[i].id)
    ensures StillThere(s.items, Numbered(s.items[..k] + s.items[k + 1..]), s, e)
  {
    var rest := s.items[..k] + s.items[k + 1..];
    var after := Numbered(rest);
    forall i, j | 0 <= i < |s.items| && 0 <= j < |after| && s.items[i].id == after[j].id
      ensures after[j] == NoteAfter(s, e, s.items[i], j)
    {
      assert rest[j] == s.items[if j < k then j else j + 1];
      assert i == if j < k then j else j + 1;
    }
  }

  // One annotation changed in place, the others left as they are.
  lemma OneChanged(s: State, e: Event, k: nat, it: Item)
    requires InOrder(s.items, s.lastId) && k < |s.items| && it == NoteAfter(s, e, s.items[k], k)
    requires s.editing == Some(s.items[k].id)
    ensures StillThere(s.items, s.items[k := it], s, e)
  {
    var after := s.items[k := it];
    forall i, j | 0 <= i < |s.items| && 0 <= j < |after| && s.items[i].id == after[j].id
      ensures after[j] == NoteAfter(s, e, s.items[i], j)
    {
      assert after[j].id == s.items[j].id;
      assert i == j;
    }
  }

  lemma InPlaceIsNumbered(s: State)
    requires InOrder(s.items, s.lastId)
    ensures Numbered(s.items) == s.items
  {
  }

  lemma CancelledNotes(s: State, e: Event)
    requires Locked(s) && s.editing.Some? && (e.Cancel? || ((e.Escape? || e.EscapeInOverlay?) && s.menuFor.None?))
    ensures StillThere(s.items, CancelCard(s).items, s, e)
  {
    FoundIsLive(s.items, s.editing.value);
    var i := Find(s.items, s.editing.value).value;
    hide Find, StillThere, Remove, Numbered;
    assert forall j :: 0 <= j < |s.items| && j != i ==> s.items[j].id != s.items[i].id;
    if s.items[i].saved {
      OneChanged(s, e, i, s.items[i].(edits := map[]));
      assert CancelCard(s).items == Cleared(s.items, i);
    } else {
      RemovedItems(CloseCard(s), i);
      AllButOne(s, e, i);
    }
  }

  lemma RemovedNotes(s: State, t: State, e: Event, id: nat)
    requires Locked(s) && t.items == s.items
    requires e.Trash? || e.ClickRemove? || e.Menu?
    ensures StillThere(s.items, RemoveById(t, id).items, s, e)
  {
    hide StillThere, Remove, Numbered;
    if Find(t.items, id).Some? {
      RemovedItems(t, Find(t.items, id).value);
      AllButOne(s, e, Find(t.items, id).value);
    } else {
      InPlaceIsNumbered(s);
      AllUnchanged(s, e, s.items);
    }
  }

  lemma SavedNotes(s: State, comment: string)
    requires Locked(s)
    ensures StillThere(s.items, Step(s, Save(comment)).items, s, Save(comment))
  {
    var found := if s.on && s.editing.Some? then Find(s.items, s.editing.value) else None;
    if s.editing.Some? { FoundIsLive(s.items, s.editing.value); }
    if !s.on { NothingWhileOff(s); }
    hide Find, StillThere, Live;
    if found.Some? {
      var k := found.value;
      var it := s.items[k].(comment := comment, saved := true);
      OneChanged(s, Save(comment), k, it);
      assert Numbered(s.items[k := it]) == s.items[k := it];
    } else {
      InPlaceIsNumbered(s);
      AllUnchanged(s, Save(comment), s.items);
    }
  }

  lemma ProposedNotes(s: State, prop: Prop, next: string)
    requires Locked(s)
    ensures StillThere(s.items, Step(s, Propose(prop, next)).items, s, Propose(prop, next))
  {
    var found := if s.on && s.editing.Some? then Find(s.items, s.editing.value) else None;
    if s.editing.Some? { FoundIsLive(s.items, s.editing.value); }
    if !s.on { NothingWhileOff(s); }
    hide Find, StillThere, Live, SameStyle, Put;
    if found.Some? {
      var k := found.value;
      OneChanged(s, Propose(prop, next), k, Step(s, Propose(prop, next)).items[k]);
    } else {
      InPlaceIsNumbered(s);
      AllUnchanged(s, Propose(prop, next), s.items);
    }
  }

  lemma PickedNotes(s: State, el: Element, computed: map<Prop, string>)
    requires Locked(s)
    ensures StillThere(s.items, PickNow(s, el, computed).items, s, Event.Pick(el, computed))
  {
    hide InlineOf;
    var after := PickNow(s, el, computed).items;
    forall i, j | 0 <= i < |s.items| && 0 <= j < |after| && s.items[i].id == after[j].id
      ensures after[j] == NoteAfter(s, Event.Pick(el, computed), s.items[i], j)
    {
      assert i == j;
    }
  }

  /** What every annotation that is left holds after any event: saving gives the one
      whose card is open its comment, a proposal changes that one's proposals,
      cancelling drops them, and nothing else changes anything but its number. */
  lemma WhatIsLeft(s: State, e: Event)
    requires Locked(s)
    ensures StillThere(s.items, Step(s, e).items, s, e)
  {
    hide Remove, ApplyEdit, Empty, CancelCard, Numbered, PickNow, RemoveById, StillThere, Live, OneDraft, Draft;
    EmptiedIs(s);
    EmptiedIs(s.(on := false));
    InPlaceIsNumbered(s);
    if !s.on { NothingWhileOff(s); }
    NothingStays(s, e);
    match e
    case DropLast => if s.items != [] { DroppedLastNotes(s); } else { AllUnchanged(s, e, s.items); }
    case Pick(el, computed) => if s.on && !s.cardOpen { PickedNotes(s, el, computed); } else { AllUnchanged(s, e, s.items); }
    case Save(comment) => SavedNotes(s, comment);
    case Trash => if s.editing.Some? { RemovedNotes(s, s, e, s.editing.value); } else { AllUnchanged(s, e, s.items); }
    case ClickRemove(id) => RemovedNotes(s, s, e, id);
    case Menu(choice) =>
      AllUnchanged(s, e, s.items);
      if s.menuFor.Some? { RemovedNotes(s, CloseMenu(s), e, s.menuFor.value); }
    case Propose(prop, next) => ProposedNotes(s, prop, next);
    case Cancel => if s.editing.Some? { CancelledNotes(s, e); } else { AllUnchanged(s, e, s.items); NothingToCancel(s); }
    case Escape => EscapedNotes(s, e);
    case EscapeInOverlay => EscapedNotes(s, e);
    case Exit =>
    case Clear =>
    case _ => AllUnchanged(s, e, s.items);
  }

  lemma NothingStays(s: State, e: Event)
    ensures StillThere(s.items, [], s, e)
  {
  }

  lemma NothingToCancel(s: State)
    requires s.editing.None?
    ensures CancelCard(s) == CloseCard(s)
  {
  }

  lemma DroppedLastNotes(s: State)
    requires Locked(s) && s.items != []
    ensures StillThere(s.items, Remove(s, |s.items| - 1).items, s, DropLast)
  {
    hide Remove, StillThere, Numbered;
    RemovedItems(s, |s.items| - 1);
    AllButOne(s, DropLast, |s.items| - 1);
  }

  lemma EscapedNotes(s: State, e: Event)
    requires Locked(s) && (e.Escape? || e.EscapeInOverlay?)
    ensures StillThere(s.items, Step(s, e).items, s, e)
  {
    hide CancelCard, Empty, StillThere, Live, Numbered, OneDraft, InOrder;
    EmptiedIs(s.(on := false));
    InPlaceIsNumbered(s);
    NothingStays(s, e);
    if !s.on { NothingWhileOff(s); }
    if s.editing.Some? {
      CancelledNotes(s, e);
    } else {
      AllUnchanged(s, e, s.items);
      NothingToCancel(s);
    }
  }

  /** A pick's annotation starts from what the element is and shows, with nothing
      proposed, nothing said and not saved. */
  lemma NewNote(s: State, el: Element, computed: map<Prop, string>)
    requires Locked(s) && s.on && s.editing.None?
    ensures var after, n := Step(s, Event.Pick(el, computed)).items, |s.items|;
            && |after| == n + 1
            && after[n] == Item(s.lastId + 1, n + 1, el, computed, InlineOf(s.page, el), map[], "", false)
  {
    hide InlineOf;
  }

  // ---- Comments over runs -------------------------------------------------------------------

  // The last text saved for an annotation, and whether one was.
  ghost function LastSaved(page: Page, events: seq<Event>, id: nat): Option<string> {
    if events == [] then None
    else
      var front, e := events[..|events| - 1], events[|events| - 1];
      if SavesNote(Run(Injected(page), front), e, id) then Some(e.comment) else LastSaved(page, front, id)
  }

  lemma IdsOnlyGrow(s: State, e: Event)
    ensures s.lastId <= Step(s, e).lastId
  {
    hide Remove, ApplyEdit, Empty, CancelCard, RemoveById, InlineOf, Numbered;
    match e
    case Exit => EmptyKeepsLastId(s.(on := false));
    case Clear => EmptyKeepsLastId(s);
    case DropLast => if s.items != [] { RemovedItems(s, |s.items| - 1); }
    case Trash => if s.editing.Some? { RemoveByIdKeepsLastId(s, s.editing.value); }
    case ClickRemove(id) => RemoveByIdKeepsLastId(s, id);
    case Menu(choice) => if s.menuFor.Some? { RemoveByIdKeepsLastId(CloseMenu(s), s.menuFor.value); }
    case Propose(prop, next) => ProposedIds(s, prop, next);
    case Cancel => CancelKeepsLastId(s);
    case Escape => CancelKeepsLastId(s); EmptyKeepsLastId(s.(on := false));
    case EscapeInOverlay => CancelKeepsLastId(s);
    case _ =>
  }

  lemma EmptyKeepsLastId(s: State)
    ensures Empty(s).lastId == s.lastId
  {
    hide RestoreFirst;
  }

  lemma RemoveByIdKeepsLastId(s: State, id: nat)
    ensures RemoveById(s, id).lastId == s.lastId
  {
    hide Remove;
    if Find(s.items, id).Some? { RemovedItems(s, Find(s.items, id).value); }
  }

  lemma CancelKeepsLastId(s: State)
    ensures CancelCard(s).lastId == s.lastId
  {
    hide Remove, Restore;
    var found := if s.editing.Some? then Find(s.items, s.editing.value) else None;
    if found.Some? { RemovedItems(CloseCard(s), found.value); }
  }

  lemma {:induction false} UnusedIsUnsaved(page: Page, events: seq<Event>, id: nat)
    requires id > Run(Injected(page), events).lastId
    ensures LastSaved(page, events, id) == None
  {
    if events != [] {
      hide Step, Locked;
      var front, e := events[..|events| - 1], events[|events| - 1];
      var s := Run(Injected(page), front);
      IdsOnlyGrow(s, e);
      UnusedIsUnsaved(page, front, id);
      DraftLock(page, front);
      EditedIsUsed(s);
    }
  }

  lemma EditedIsUsed(s: State)
    requires Locked(s)
    ensures s.editing.Some? ==> s.editing.value <= s.lastId
  {
  }

  // Every annotation holds the text last saved for it, if any.
  ghost predicate HoldsSaved(items: seq<Item>, page: Page, events: seq<Event>) {
    forall i :: 0 <= i < |items| ==> NoteIs(items[i], LastSaved(page, events, items[i].id))
  }

  ghost predicate NoteIs(it: Item, saved: Option<string>) {
    match saved
    case Some(text) => it.saved && it.comment == text
    case None => !it.saved && it.comment == ""
  }

  /** A note is never lost: over any run every annotation holds the text last saved
      for it, and none when there was none; so one saved keeps its text until it is
      saved again or dropped. */
  lemma {:induction false} NotesAreKept(page: Page, events: seq<Event>)
    ensures HoldsSaved(Run(Injected(page), events).items, page, events)
  {
    if events != [] {
      var front, e := events[..|events| - 1], events[|events| - 1];
      var s, t := Run(Injected(page), front), Run(Injected(page), events);
      NotesAreKept(page, front);
      DraftLock(page, front);
      hide Run, Locked, Step, StillThere;
      assert t == Step(s, e) by { RunStep(page, events); }
      WhatIsLeft(s, e);
      forall j | 0 <= j < |t.items|
        ensures NoteIs(t.items[j], LastSaved(page, events, t.items[j].id))
      {
        NoteIsKept(page, front, e, j);
      }
    }
  }

  lemma RunStep(page: Page, events: seq<Event>)
    requires events != []
    ensures Run(Injected(page), events) == Step(Run(Injected(page), events[..|events| - 1]), events[|events| - 1])
  {
    hide Step;
  }

  lemma NoteIsKept(page: Page, front: seq<Event>, e: Event, j: nat)
    requires HoldsSaved(Run(Injected(page), front).items, page, front)
    requires var s := Run(Injected(page), front);
             Locked(s) && StillThere(s.items, Step(s, e).items, s, e) && j < |Step(s, e).items|
    ensures var it := Step(Run(Injected(page), front), e).items[j]; NoteIs(it, LastSaved(page, front + [e], it.id))
  {
    var s := Run(Injected(page), front);
    var t := Step(s, e);
    var it, events := t.items[j], front + [e];
    assert events[..|front|] == front && events[|front|] == e;
    ComesFrom(s, e, j);
    hide Run, Step, Locked;
    if i :| 0 <= i < |s.items| && s.items[i].id == it.id {
      assert it == NoteAfter(s, e, s.items[i], j);
    } else {
      UnusedIsUnsaved(page, front, it.id);
    }
  }

  // What is there after an event was there before, or was just picked.
  lemma ComesFrom(s: State, e: Event, j: nat)
    requires Locked(s) && j < |Step(s, e).items|
    ensures var it := Step(s, e).items[j];
            Live(s.items, it.id) ||
            (it.id > s.lastId && it.comment == "" && !it.saved && s.editing != Some(it.id) && !SavesNote(s, e, it.id))
  {
    var ids, after := Ids(s.items), Ids(Step(s, e).items);
    WhoIsLeft(s, e);
    EditedIsUsed(s);
    assert after[j] in IdsAfter(s, e);
    if e.Pick? && s.on && s.editing.None? {
      NewNote(s, e.el, e.computed);
      hide Step, Locked;
      if j < |s.items| {
        assert after[j] == ids[j];
        LiveIds(s.items, ids[j]);
      }
    } else {
      hide Step, Locked;
      OnlyOldIds(s, e, after[j]);
      LiveIds(s.items, after[j]);
    }
  }

  lemma LiveIds(items: seq<Item>, id: nat)
    requires id in Ids(items)
    ensures Live(items, id)
  {
    var i :| 0 <= i < |items| && Ids(items)[i] == id;
    assert items[i].id == id;
  }

  lemma {:induction false} WithoutIsLess(ids: seq<nat>, id: nat, other: nat)
    ensures other in Without(ids, id) ==> other in ids
  {
    if ids != [] {
      WithoutIsLess(ids[..|ids| - 1], id, other);
    }
  }

  lemma OnlyOldIds(s: State, e: Event, id: nat)
    requires id in IdsAfter(s, e) && !(e.Pick? && s.on && s.editing.None?)
    ensures id in Ids(s.items)
  {
    hide Ids;
    if s.editing.Some? { WithoutIsLess(Ids(s.items), s.editing.value, id); }
    if s.menuFor.Some? { WithoutIsLess(Ids(s.items), s.menuFor.value, id); }
    if e.ClickRemove? { WithoutIsLess(Ids(s.items), e.chip, id); }
    hide Without;
  }

  // ---- Previews dropped by cancelling --------------------------------------------------------

  /** Cancelling on a saved note keeps the note and drops its previews: each property it
      alone proposed goes back to what was there when it was picked. */
  lemma CancellingDropsPreviews(s: State, i: nat, p: Prop)
    requires Locked(s) && i < |s.items| && s.editing == Some(s.items[i].id) && s.items[i].saved
    requires p in s.items[i].edits && Alone(s.items, i, p)
    ensures At(CancelCard(s).page, s.items[i].el, p) == Reported(Own(s.items[i], p))
    ensures CancelCard(s).items == s.items[i := s.items[i].(edits := map[])]
  {
    FoundIsLive(s.items, s.editing.value);
    assert Find(s.items, s.editing.value) == Some(i);
    hide Find;
    AtRestore(s, i, s.items[i].el, p);
    assert CancelCard(s) == CloseCard(Restore(s, i));
    NoEditorLeft(s.items, i, s.items[i].el, p);
  }

  /** A proposal shows at once, over any rule of the page; one taken back, or that says
      what the element computes anyway, puts back what was there when it was picked; and
      no other property changes. */
  lemma ProposalShows(s: State, i: nat, prop: Prop, next: string, el: Element, p: Prop)
    requires Locked(s) && i < |s.items| && s.editing == Some(s.items[i].id)
    ensures var it, page := s.items[i], Step(s, Propose(prop, next)).page;
            At(page, el, p) ==
            if el != it.el || p != prop then At(s.page, el, p)
            else if next == "" || SameStyle(next, Computed(it, prop)) then Reported(Own(it, prop))
            else Style(next, "important")
  {
    FoundIsLive(s.items, s.editing.value);
    assert Find(s.items, s.editing.value) == Some(i);
    assert s.on;
    hide Find, SameStyle, Own, At, Put;
    var it := s.items[i];
    AtPut(s.page, it.el, prop, Own(it, prop), el, p);
    AtPut(s.page, it.el, prop, Style(next, "important"), el, p);
  }

  /** Only proposals, and what drops annotations or their proposals, touch the page. */
  lemma OthersLeaveThePage(s: State, e: Event)
    requires Locked(s)
    requires e.Enter? || e.Pick? || e.Save? || e.ClickPin? || e.ClickDots? || e.ClickPage?
             || (e.Menu? && !e.choice.RemoveIt?) || ((e.Escape? || e.EscapeInOverlay?) && s.menuFor.Some?)
    ensures Step(s, e).page == s.page
  {
    hide Numbered, InlineOf, CancelCard, Empty, RemoveById;
    if !s.on { NothingWhileOff(s); }
  }
}
