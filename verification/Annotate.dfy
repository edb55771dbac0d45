/** The in-page annotator: pins, one open card, one menu, and style previews
    laid over the page's own inline styles (desktop-shell/src/annotate.js). */
module Annotate {
  import opened Wrappers
  import opened Text

  type Element = nat

  // The six properties the style inspector edits.
  datatype Prop = Color | Background | Opacity | Font | Size | Weight

  const PROPS: seq<Prop> := [Color, Background, Opacity, Font, Size, Weight]

  // An inline declaration; no value means there is none.
  datatype Style = Style(value: string, priority: string)

  const NO_STYLE := Style("", "")
  const IMPORTANT := "important"

  type Page = map<(Element, Prop), Style>

  function At(page: Page, el: Element, p: Prop): Style {
    if (el, p) in page then page[(el, p)] else NO_STYLE
  }

  // setProperty and removeProperty in one: an empty value removes.
  function Put(page: Page, el: Element, p: Prop, style: Style): Page {
    if style.value == "" then page - {(el, p)} else page[(el, p) := style]
  }

  lemma EveryProp(p: Prop)
    ensures p in PROPS
  {
    match p {
      case Color => assert PROPS[0] == p;
      case Background => assert PROPS[1] == p;
      case Opacity => assert PROPS[2] == p;
      case Font => assert PROPS[3] == p;
      case Size => assert PROPS[4] == p;
      case Weight => assert PROPS[5] == p;
    }
  }

  function InlineOf(page: Page, el: Element): map<Prop, Style> {
    map p | p in PROPS :: At(page, el, p)
  }

  /** One annotation. `computed` and `inline` are snapshots taken when the
      element was picked; `edits` are the proposed values. */
  datatype Item = Item(id: nat, n: nat, el: Element, computed: map<Prop, string>, inline: map<Prop, Style>,
                       edits: map<Prop, string>, comment: string, saved: bool)

  datatype State = State(on: bool, lastId: nat, items: seq<Item>, editing: Option<nat>, cardOpen: bool,
                         menuFor: Option<nat>, menuOpen: bool, page: Page)

  // ---- Style previews -------------------------------------------------------------

  function Normal(s: string): string {
    if s == "" then ""
    else
      (if IsSpace(s[0]) then "" else if s[0] == '\'' then "\"" else [LowerChar(s[0])]) + Normal(s[1..])
  }

  predicate SameStyle(a: string, b: string) {
    Normal(a) == Normal(b)
  }

  function Computed(it: Item, p: Prop): string {
    if p in it.computed then it.computed[p] else ""
  }

  function Own(it: Item, p: Prop): Style {
    if p in it.inline then it.inline[p] else NO_STYLE
  }

  predicate Edits(it: Item, el: Element, p: Prop) {
    it.el == el && p in it.edits
  }

  // The first item that edits a property of an element.
  function Editor(items: seq<Item>, el: Element, p: Prop): (r: Option<nat>)
    ensures r.Some? ==> r.value < |items| && Edits(items[r.value], el, p)
    ensures r.None? ==> forall i :: 0 <= i < |items| ==> !Edits(items[i], el, p)
  {
    if items == [] then None
    else if Edits(items[0], el, p) then Some(0)
    else
      match Editor(items[1..], el, p)
      case None =>
        assert forall i :: 1 <= i < |items| ==> items[i] == items[1..][i - 1];
        None
      case Some(i) => Some(i + 1)
  }

  // Putting back one property of item i, whose own edits are already cleared:
  // another item's proposal stays, the page's own value otherwise.
  function PutBack(items: seq<Item>, i: nat, page: Page, p: Prop): Page
    requires i < |items|
  {
    var it := items[i];
    match Editor(items, it.el, p)
    case Some(j) => Put(page, it.el, p, Style(items[j].edits[p], IMPORTANT))
    case None => Put(page, it.el, p, Own(it, p))
  }

  function PutBackAll(items: seq<Item>, i: nat, page: Page, edits: map<Prop, string>, props: seq<Prop>): Page
    requires i < |items|
  {
    if props == [] then page
    else
      var n := |props| - 1;
      var before := PutBackAll(items, i, page, edits, props[..n]);
      if props[n] in edits then PutBack(items, i, before, props[n]) else before
  }

  function Cleared(items: seq<Item>, i: nat): (r: seq<Item>)
    requires i < |items|
    ensures |r| == |items|
  {
    items[i := items[i].(edits := map[])]
  }

  function Restore(s: State, i: nat): (r: State)
    requires i < |s.items|
    ensures |r.items| == |s.items|
    ensures r == s.(items := r.items, page := r.page)
  {
    var items := Cleared(s.items, i);
    s.(items := items, page := PutBackAll(items, i, s.page, s.items[i].edits, PROPS))
  }

  // The first k items restored, in order.
  function RestoreFirst(s: State, k: nat): (r: State)
    requires k <= |s.items|
    ensures |r.items| == |s.items|
    ensures r == s.(items := r.items, page := r.page)
  {
    if k == 0 then s else Restore(RestoreFirst(s, k - 1), k - 1)
  }

  function RestoreAll(s: State): State {
    RestoreFirst(s, |s.items|)
  }

  // A proposed value, already trimmed; an empty one, or one the page already
  // computes, takes the proposal back.
  function ApplyEdit(s: State, i: nat, p: Prop, next: string): State
    requires i < |s.items|
  {
    var it := s.items[i];
    if next == "" || SameStyle(next, Computed(it, p)) then
      s.(items := s.items[i := it.(edits := it.edits - {p})], page := Put(s.page, it.el, p, Own(it, p)))
    else
      s.(items := s.items[i := it.(edits := it.edits[p := next])],
         page := Put(s.page, it.el, p, Style(next, IMPORTANT)))
  }

  // ---- Cards, menus, numbering ------------------------------------------------------

  function Find(items: seq<Item>, id: nat): (r: Option<nat>)
    ensures r.Some? ==> r.value < |items| && items[r.value].id == id
    ensures r.None? ==> forall i :: 0 <= i < |items| ==> items[i].id != id
  {
    if items == [] then None
    else if items[0].id == id then Some(0)
    else
      match Find(items[1..], id)
      case None =>
        assert forall i :: 1 <= i < |items| ==> items[i] == items[1..][i - 1];
        None
      case Some(i) => Some(i + 1)
  }

  function Numbered(items: seq<Item>): (r: seq<Item>)
    ensures |r| == |items|
    ensures forall i :: 0 <= i < |items| ==> r[i] == items[i].(n := i + 1)
  {
    seq(|items|, i requires 0 <= i < |items| => items[i].(n := i + 1))
  }

  function CloseCard(s: State): State {
    s.(cardOpen := false, editing := None)
  }

  function CloseMenu(s: State): State {
    s.(menuOpen := false, menuFor := None)
  }

  function OpenCard(s: State, id: nat): State {
    CloseMenu(s).(editing := Some(id), cardOpen := true)
  }

  function Remove(s: State, i: nat): State
    requires i < |s.items|
  {
    var id := s.items[i].id;
    var a := if s.editing == Some(id) then CloseCard(s) else s;
    var b := if a.menuFor == Some(id) then CloseMenu(a) else a;
    var c := Restore(b, i);
    c.(items := Numbered(c.items[..i] + c.items[i + 1..]))
  }

  // ---- Events -------------------------------------------------------------------------

  datatype MenuChoice = Edit | RemoveIt | OtherChoice

  /** Everything that can reach the annotator, from the page, from its own
      overlay and from the chrome strip. */
  datatype Event =
    | Enter
    | Exit
    | Clear
    | DropLast
    | Pick(el: Element, computed: map<Prop, string>)
    | Save(comment: string)
    | Cancel
    | Trash
    | ClickPin(pin: nat)
    | ClickDots(dots: nat)
    | ClickRemove(chip: nat)
    | Menu(choice: MenuChoice)
    | ClickPage
    | Escape
    | EscapeInOverlay
    | Propose(prop: Prop, next: string)

  function Empty(s: State): State {
    RestoreAll(CloseCard(CloseMenu(s))).(items := [])
  }

  function ExitNow(s: State): State {
    Empty(s.(on := false))
  }

  function CancelCard(s: State): State {
    match (if s.editing.Some? then Find(s.items, s.editing.value) else None)
    case None => CloseCard(s)
    case Some(i) =>
      if !s.items[i].saved then Remove(CloseCard(s), i) else CloseCard(Restore(s, i))
  }

  function RemoveById(s: State, id: nat): State {
    match Find(s.items, id)
    case None => s
    case Some(i) => Remove(s, i)
  }

  function PickNow(s: State, el: Element, computed: map<Prop, string>): State {
    var it := Item(s.lastId + 1, |s.items| + 1, el, computed, InlineOf(s.page, el), map[], "", false);
    OpenCard(s.(lastId := s.lastId + 1, items := Numbered(s.items + [it])), it.id)
  }

  function Step(s: State, e: Event): State {
    match e
    case Enter => s.(on := true, items := Numbered(s.items))
    case Exit => ExitNow(s)
    case Clear => Empty(s)
    case DropLast => if s.items == [] then s else Remove(s, |s.items| - 1)
    case Pick(el, computed) => if !s.on || s.cardOpen then s else PickNow(s, el, computed)
    case Save(comment) =>
      (match (if s.on && s.editing.Some? then Find(s.items, s.editing.value) else None)
       case None => s
       case Some(i) =>
         CloseCard(s.(items := Numbered(s.items[i := s.items[i].(comment := comment, saved := true)]))))
    case Cancel => CancelCard(s)
    case Trash => if s.editing.Some? then RemoveById(s, s.editing.value) else s
    case ClickPin(id) => if s.cardOpen || Find(s.items, id).None? then s else OpenCard(s, id)
    case ClickDots(id) =>
      if s.cardOpen || Find(s.items, id).None? then s else s.(menuFor := Some(id), menuOpen := true)
    case ClickRemove(id) => RemoveById(s, id)
    case Menu(choice) =>
      var t := CloseMenu(s);
      if s.menuFor.None? then t
      else (match choice
            case Edit => OpenCard(t, s.menuFor.value)
            case RemoveIt => RemoveById(t, s.menuFor.value)
            case OtherChoice => t)
    case ClickPage => if s.on && s.menuOpen then CloseMenu(s) else s
    case Escape =>
      if !s.on then s else if s.menuOpen then CloseMenu(s) else if s.cardOpen then CancelCard(s) else ExitNow(s)
    case EscapeInOverlay => if !s.on then s else if s.menuOpen then CloseMenu(s) else CancelCard(s)
    case Propose(prop, next) =>
      (match (if s.on && s.editing.Some? then Find(s.items, s.editing.value) else None)
       case None => s
       case Some(i) => ApplyEdit(s, i, prop, next))
  }

  function Run(s: State, events: seq<Event>): State {
    if events == [] then s else Step(Run(s, events[..|events| - 1]), events[|events| - 1])
  }

  // The annotator as injected into a page.
  function Injected(page: Page): State {
    State(false, 0, [], None, false, None, false, page)
  }

  /** The annotator with its fields updated in place by the handlers. */
  class Annotator {
    var on: bool
    var lastId: nat
    var items: seq<Item>
    var editing: Option<nat>
    var cardOpen: bool
    var menuFor: Option<nat>
    var menuOpen: bool
    var page: Page

    function Now(): State
      reads this
    {
      State(on, lastId, items, editing, cardOpen, menuFor, menuOpen, page)
    }

    constructor (page: Page)
      ensures Now() == Injected(page)
    {
      on, lastId, items, editing, cardOpen := false, 0, [], None, false;
      menuFor, menuOpen, this.page := None, false, page;
    }

    method Sync()
      modifies this`items
      ensures items == Numbered(old(items))
    {
      var i := 0;
      while i < |items|
        invariant 0 <= i <= |items| == |old(items)|
        invariant forall k :: 0 <= k < i ==> items[k] == old(items)[k].(n := k + 1)
        invariant forall k :: i <= k < |items| ==> items[k] == old(items)[k]
      {
        items := items[i := items[i].(n := i + 1)];
        i := i + 1;
      }
    }

    method RestoreStyles(i: nat)
      requires i < |items|
      modifies this`items, this`page
      ensures Now() == Restore(old(Now()), i)
    {
      hide PutBack;
      var edits := items[i].edits;
      items := items[i := items[i].(edits := map[])];
      assert items == Cleared(old(items), i);
      var k := 0;
      while k < |PROPS|
        invariant 0 <= k <= |PROPS|
        invariant items == Cleared(old(items), i)
        invariant page == PutBackAll(items, i, old(page), edits, PROPS[..k])
      {
        assert PROPS[..k + 1][..k] == PROPS[..k];
        if PROPS[k] in edits {
          page := PutBack(items, i, page, PROPS[k]);
        }
        k := k + 1;
      }
      assert PROPS[..|PROPS|] == PROPS;
    }

    method RestoreAllStyles()
      modifies this`items, this`page
      ensures Now() == RestoreAll(old(Now()))
    {
      hide Restore;
      var i := 0;
      while i < |items|
        invariant 0 <= i <= |items| == |old(items)|
        invariant Now() == RestoreFirst(old(Now()), i)
      {
        RestoreStyles(i);
        i := i + 1;
      }
    }

    method RemoveItem(i: nat)
      requires i < |items|
      modifies this
      ensures Now() == Remove(old(Now()), i)
    {
      hide Restore;
      var id := items[i].id;
      if editing == Some(id) {
        cardOpen, editing := false, None;
      }
      if menuFor == Some(id) {
        menuOpen, menuFor := false, None;
      }
      RestoreStyles(i);
      items := items[..i] + items[i + 1..];
      Sync();
    }

    method EmptyAll()
      modifies this
      ensures Now() == Empty(old(Now()))
    {
      menuOpen, menuFor := false, None;
      cardOpen, editing := false, None;
      RestoreAllStyles();
      items := [];
    }

    method Cancel()
      modifies this
      ensures Now() == CancelCard(old(Now()))
    {
      hide Restore, Remove;
      var i := if editing.Some? then Find(items, editing.value) else None;
      if i.Some? && !items[i.value].saved {
        cardOpen, editing := false, None;
        RemoveItem(i.value);
        return;
      }
      if i.Some? {
        RestoreStyles(i.value);
      }
      cardOpen, editing := false, None;
    }

    method Pick(el: Element, computed: map<Prop, string>)
      modifies this
      ensures Now() == Step(old(Now()), Event.Pick(el, computed))
    {
      hide InlineOf;
      if !on || cardOpen {
        return;
      }
      lastId := lastId + 1;
      var it := Item(lastId, |items| + 1, el, computed, InlineOf(page, el), map[], "", false);
      items := items + [it];
      editing, cardOpen := Some(it.id), true;
      menuOpen, menuFor := false, None;
      Sync();
    }

    method Propose(prop: Prop, next: string)
      modifies this`items, this`page
      ensures Now() == Step(old(Now()), Event.Propose(prop, next))
    {
      hide SameStyle;
      var found := if on && editing.Some? then Find(items, editing.value) else None;
      if found.None? {
        return;
      }
      var i := found.value;
      var it := items[i];
      if next == "" || SameStyle(next, Computed(it, prop)) {
        items := items[i := it.(edits := it.edits - {prop})];
        page := Put(page, it.el, prop, Own(it, prop));
      } else {
        items := items[i := it.(edits := it.edits[prop := next])];
        page := Put(page, it.el, prop, Style(next, IMPORTANT));
      }
    }

    /** Any event, handled in place as its step says. */
    method Handle(e: Event)
      modifies this
      ensures Now() == Step(old(Now()), e)
    {
      hide Restore, Remove, RestoreFirst, Numbered, Empty, CancelCard, PickNow, ApplyEdit;
      match e
      case Enter =>
        on := true;
        Sync();
      case Exit =>
        on := false;
        EmptyAll();
      case Clear =>
        EmptyAll();
      case DropLast =>
        if items != [] {
          RemoveItem(|items| - 1);
        }
      case Pick(el, computed) =>
        Pick(el, computed);
      case Save(comment) =>
        var i := if on && editing.Some? then Find(items, editing.value) else None;
        if i.Some? {
          items := items[i.value := items[i.value].(comment := comment, saved := true)];
          cardOpen, editing := false, None;
          Sync();
        }
      case Cancel =>
        Cancel();
      case Trash =>
        if editing.Some? {
          Drop(editing.value);
        }
      case ClickPin(id) =>
        if !cardOpen && Find(items, id).Some? {
          Open(id);
        }
      case ClickDots(id) =>
        if !cardOpen && Find(items, id).Some? {
          menuFor, menuOpen := Some(id), true;
        }
      case ClickRemove(id) =>
        Drop(id);
      case Menu(choice) =>
        var target := menuFor;
        menuOpen, menuFor := false, None;
        if target.Some? && choice == Edit {
          Open(target.value);
        } else if target.Some? && choice == RemoveIt {
          Drop(target.value);
        }
      case ClickPage =>
        if on && menuOpen {
          menuOpen, menuFor := false, None;
        }
      case Escape =>
        if on {
          if menuOpen {
            menuOpen, menuFor := false, None;
          } else if cardOpen {
            Cancel();
          } else {
            on := false;
            EmptyAll();
          }
        }
      case EscapeInOverlay =>
        if on {
          if menuOpen {
            menuOpen, menuFor := false, None;
          } else {
            Cancel();
          }
        }
      case Propose(prop, next) =>
        Propose(prop, next);
    }

    method Open(id: nat)
      modifies this
      ensures Now() == OpenCard(old(Now()), id)
    {
      editing, cardOpen := Some(id), true;
      menuOpen, menuFor := false, None;
    }

    method Drop(id: nat)
      modifies this
      ensures Now() == RemoveById(old(Now()), id)
    {
      hide Remove;
      var i := Find(items, id);
      if i.Some? {
        RemoveItem(i.value);
      }
    }
  }
}
