/** Runs of the annotator in which a preview is picked up as the page's own style,
    or wiped by another annotation. */
module AnnotateRuns {
  import opened Wrappers
  import opened Annotate
  import opened AnnotateLaws
  import opened AnnotateLocks

  const BARE: Page := map[]
  const NOTHING: map<Prop, Style> := InlineOf(BARE, 0)

  // A saved annotation of element 0 of a bare page.
  function Pinned(id: nat, edits: map<Prop, string>): Item {
    Item(id, id, 0, map[], NOTHING, edits, "", true)
  }

  function Idle(items: seq<Item>, page: Page): State {
    State(true, |items|, items, None, false, None, false, page)
  }

  const RED: Page := map[(0, Color) := Style("red", IMPORTANT)]

  function TwoPins(): seq<Event> {
    [Enter, Pick(0, map[]), Save(""), Pick(0, map[]), Save("")]
  }

  function RedOnTheFirst(): seq<Event> {
    TwoPins() + [ClickPin(1), Propose(Color, "red"), Save("")]
  }

  lemma RunsOn(s: State, events: seq<Event>, e: Event)
    ensures Run(s, events + [e]) == Step(Run(s, events), e)
  {
    hide Step;
    assert (events + [e])[..|events|] == events;
  }

  lemma RunsOnThree(s: State, events: seq<Event>, x: Event, y: Event, z: Event)
    ensures Run(s, events + [x, y, z]) == Step(Step(Step(Run(s, events), x), y), z)
  {
    hide Step;
    RunsOn(s, events, x);
    RunsOn(s, events + [x], y);
    RunsOn(s, events + [x] + [y], z);
    assert events + [x, y, z] == events + [x] + [y] + [z];
  }

  // An annotation of element 0 of the bare page, just picked.
  function Picked(id: nat): Item {
    Pinned(id, map[]).(saved := false)
  }

  lemma PickedIs(items: seq<Item>)
    requires forall i :: 0 <= i < |items| ==> items[i].n == i + 1
    ensures var n := |items| + 1;
            Step(Idle(items, BARE), Pick(0, map[])) ==
            Idle(items + [Picked(n)], BARE).(editing := Some(n), cardOpen := true)
  {
    hide InlineOf;
    assert Numbered(items + [Picked(|items| + 1)]) == items + [Picked(|items| + 1)];
  }

  lemma SavedIs(items: seq<Item>, last: Item)
    requires forall i :: 0 <= i < |items| ==> items[i].id == items[i].n == i + 1
    requires var n := |items| + 1; last.id == last.n == n && last.comment == ""
    ensures var n := |items| + 1;
            Step(Idle(items + [last], BARE).(editing := Some(n), cardOpen := true), Save("")) ==
            Idle(items + [last.(saved := true)], BARE)
  {
    var all := items + [last];
    FindLast(all, |all|);
    hide Find;
    assert Numbered(all[|items| := last.(saved := true)]) == items + [last.(saved := true)];
  }

  // Picking element 0 and saving adds a pin.
  lemma PickAndSave(items: seq<Item>)
    requires forall i :: 0 <= i < |items| ==> items[i].id == items[i].n == i + 1
    ensures Step(Step(Idle(items, BARE), Pick(0, map[])), Save("")) == Idle(items + [Pinned(|items| + 1, map[])], BARE)
  {
    hide Step, Idle;
    PickedIs(items);
    SavedIs(items, Picked(|items| + 1));
  }

  lemma TwoPinsAre()
    ensures Run(Injected(BARE), TwoPins()) == Idle([Pinned(1, map[]), Pinned(2, map[])], BARE)
  {
    hide Step, Pinned;
    RunsOn(Injected(BARE), [], Enter);
    EnterIsIdle();
    assert Run(Injected(BARE), [Enter]) == Idle([], BARE) by { assert [] + [Enter] == [Enter]; }
    var one := [Enter, Pick(0, map[]), Save("")];
    RunsOnTwo(Injected(BARE), [Enter], Pick(0, map[]), Save(""));
    RunsOnTwo(Injected(BARE), one, Pick(0, map[]), Save(""));
    assert one == [Enter] + [Pick(0, map[]), Save("")] && TwoPins() == one + [Pick(0, map[]), Save("")];
    PickAndSave([]);
    assert Pinned(1, map[]).id == Pinned(1, map[]).n == 1 by { PinnedIs(1, map[]); }
    PickAndSave([Pinned(1, map[])]);
    assert [] + [Pinned(1, map[])] == [Pinned(1, map[])];
    assert [Pinned(1, map[])] + [Pinned(2, map[])] == [Pinned(1, map[]), Pinned(2, map[])];
  }

  lemma PinnedIs(id: nat, edits: map<Prop, string>)
    ensures Pinned(id, edits).id == Pinned(id, edits).n == id && Pinned(id, edits).edits == edits
  {
  }

  lemma EnterIsIdle()
    ensures Step(Injected(BARE), Enter) == Idle([], BARE)
  {
  }

  lemma RunsOnTwo(s: State, events: seq<Event>, x: Event, y: Event)
    ensures Run(s, events + [x, y]) == Step(Step(Run(s, events), x), y)
  {
    hide Step;
    RunsOn(s, events, x);
    RunsOn(s, events + [x], y);
    assert events + [x, y] == events + [x] + [y];
  }

  // Two pins, the card of one of them open.
  function Card(items: seq<Item>, page: Page, id: nat): State {
    Idle(items, page).(editing := Some(id), cardOpen := true)
  }

  lemma CardOpens(edits: map<Prop, string>, page: Page, id: nat)
    requires id == 1 || id == 2
    ensures var items := [Pinned(1, edits), Pinned(2, map[])];
            Find(items, id) == Some(id - 1) && Step(Idle(items, page), ClickPin(id)) == Card(items, page, id)
  {
    var items := [Pinned(1, edits), Pinned(2, map[])];
    assert items[1..] == [Pinned(2, map[])];
  }

  lemma RedIsProposed()
    ensures Step(Card([Pinned(1, map[]), Pinned(2, map[])], BARE, 1), Propose(Color, "red")) ==
            Card([Pinned(1, map[Color := "red"]), Pinned(2, map[])], RED, 1)
  {
    hide InlineOf;
    CardOpens(map[], BARE, 1);
    assert Normal("red") != Normal("");
    hide Find, Normal;
    var items := [Pinned(1, map[]), Pinned(2, map[])];
    assert items[0 := Pinned(1, map[Color := "red"])] == [Pinned(1, map[Color := "red"]), Pinned(2, map[])];
  }

  lemma RedIsSaved()
    ensures var items := [Pinned(1, map[Color := "red"]), Pinned(2, map[])];
            Step(Card(items, RED, 1), Save("")) == Idle(items, RED)
  {
    hide InlineOf;
    CardOpens(map[Color := "red"], RED, 1);
    hide Find;
    var items := [Pinned(1, map[Color := "red"]), Pinned(2, map[])];
    assert Numbered(items[0 := items[0].(comment := "", saved := true)]) == items;
  }

  lemma RedOnTheFirstIs()
    ensures Run(Injected(BARE), RedOnTheFirst()) == Idle([Pinned(1, map[Color := "red"]), Pinned(2, map[])], RED)
  {
    hide Step, Pinned, Idle, Card;
    TwoPinsAre();
    RunsOnThree(Injected(BARE), TwoPins(), ClickPin(1), Propose(Color, "red"), Save(""));
    CardOpens(map[], BARE, 1);
    RedIsProposed();
    RedIsSaved();
  }

  /** A pick that is not safe can be reached: after red is proposed on one pin, the
      next pick of the element takes it for the page's own. */
  lemma APreviewIsPickedUp()
    ensures var s := Run(Injected(BARE), RedOnTheFirst());
            s.on && !s.cardOpen && !TrueSnapshot(s.page, 0, BARE)
  {
    RedOnTheFirstIs();
    assert At(RED, 0, Color) != At(BARE, 0, Color);
  }

  /** A wiped preview can be reached: taking back nothing on the second pin removes
      what the first still proposes. */
  lemma APreviewIsWiped()
    ensures var s := Run(Injected(BARE), RedOnTheFirst() + [ClickPin(2), Propose(Color, "")]);
            Edited(s.items, 0, Color) && !Previewed(s.items, s.page, 0, Color)
  {
    RedOnTheFirstIs();
    RunsOnTwo(Injected(BARE), RedOnTheFirst(), ClickPin(2), Propose(Color, ""));
    CardOpens(map[Color := "red"], RED, 2);
    NothingTakenBack();
    hide Step, Idle;
    var items := [Pinned(1, map[Color := "red"]), Pinned(2, map[])];
    assert Edits(items[0], 0, Color);
  }

  lemma NothingTakenBack()
    ensures var items := [Pinned(1, map[Color := "red"]), Pinned(2, map[])];
            Step(Card(items, RED, 2), Propose(Color, "")) == Card(items, BARE, 2)
  {
    CardOpens(map[Color := "red"], RED, 2);
    hide Find;
    EveryProp(Color);
    var items := [Pinned(1, map[Color := "red"]), Pinned(2, map[])];
    assert Own(items[1], Color) == NO_STYLE;
    assert RED - {(0, Color)} == BARE;
    assert items[1 := Pinned(2, map[])] == items && map[] - {Color} == Pinned(2, map[]).edits;
  }
}
