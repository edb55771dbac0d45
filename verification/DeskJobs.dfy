/** What a job's inputs amount to, read off the log: which buttons and keys were
    pressed, how often, with what held, and which text was typed. */
module DeskJobs {
  import opened Wrappers
  import opened DeskLog

  // ---- Reading typed text ---------------------------------------------------------------

  // A layout a reader can invert: one character a key and shift, none of them on the
  // keys typing uses for itself.
  ghost predicate Readable(layout: Layout) {
    && (forall c <- layout :: layout[c].0 < PACKETS && layout[c].0 != VK_RETURN && layout[c].0 != VK_TAB && layout[c].0 != VK_SHIFT)
    && (forall c, d | c in layout && d in layout && layout[c] == layout[d] :: c == d)
  }

  ghost function KeyChar(layout: Layout, vk: nat, shift: bool): Option<char> {
    if c :| c in layout && layout[c] == (vk, shift) then Some(c) else None
  }

  // The key tapped at the head of a log, if one is.
  function Tapped(s: seq<Input>): Option<nat> {
    if |s| >= 2 && s[0].Key? && s[0].down && s[1] == Key(s[0].vk, false) then Some(s[0].vk) else None
  }

  // The character at the head of a log and how many events it took: Return, Tab, one
  // or two packets, or a key of the layout with or without Shift around it.
  ghost function ReadOne(s: seq<Input>, layout: Layout): (r: Option<(char, nat)>)
    ensures r.Some? ==> 0 < r.value.1 <= |s|
  {
    var tap := Tapped(s);
    if tap.Some? then
      if tap.value == VK_RETURN then Some(('\n', 2))
      else if tap.value == VK_TAB then Some(('\t', 2))
      else if tap.value < PACKETS then
        var c := KeyChar(layout, tap.value, false);
        if c.Some? then Some((c.value, 2)) else None
      else
        var unit := tap.value - PACKETS;
        if unit < 0xD800 || 0xE000 <= unit < 0x1_0000 then Some((unit as char, 2))
        else
          var second := Tapped(s[2..]);
          if unit < 0xDC00 && second.Some? && PACKETS + 0xDC00 <= second.value < PACKETS + 0xE000
          then Some((((unit - 0xD800) * 0x400 + (second.value - PACKETS - 0xDC00) + 0x1_0000) as char, 4))
          else None
    else if |s| >= 4 && s[0] == Key(VK_SHIFT, true) && s[3] == Key(VK_SHIFT, false) && Tapped(s[1..]).Some? then
      var c := KeyChar(layout, Tapped(s[1..]).value, true);
      if c.Some? then Some((c.value, 4)) else None
    else None
  }

  ghost function ReadTyped(s: seq<Input>, layout: Layout): Option<string>
    decreases |s|
  {
    if s == [] then Some("")
    else
      var one := ReadOne(s, layout);
      if one.None? then None
      else
        var rest := ReadTyped(s[one.value.1..], layout);
        if rest.None? then None else Some([one.value.0] + rest.value)
  }

  function WithoutReturns(text: string): string {
    if text == "" then ""
    else WithoutReturns(text[..|text| - 1]) + if text[|text| - 1] == '\r' then "" else [text[|text| - 1]]
  }

  lemma TapReads(vk: nat, tail: seq<Input>)
    ensures Tapped(Tap(vk) + tail) == Some(vk) && (Tap(vk) + tail)[2..] == tail
  {
  }

  lemma KeyCharIs(layout: Layout, c: char)
    requires Readable(layout) && c in layout
    ensures KeyChar(layout, layout[c].0, layout[c].1) == Some(c)
  {
  }

  lemma CharIsScalar(c: char)
    ensures 0 <= c as int < 0xD800 || 0xE000 <= c as int < 0x11_0000
  {
  }

  lemma StrokeReads(c: char, layout: Layout, tail: seq<Input>)
    requires Readable(layout) && c != '\r'
    ensures var s := Struck(StrokeOf(c, layout));
            ReadOne(s + tail, layout) == Some((c, |s|)) && (s + tail)[|s|..] == tail && |s| > 0
  {
    hide KeyChar;
    if c == '\n' {
      TapReads(VK_RETURN, tail);
    } else if c == '\t' {
      TapReads(VK_TAB, tail);
    } else if c in layout {
      KeyCharIs(layout, c);
      hide Readable;
      KeyReads(c, layout, tail);
    } else {
      PacketsRead(c, layout, tail);
    }
  }

  lemma KeyReads(c: char, layout: Layout, tail: seq<Input>)
    requires c in layout && KeyChar(layout, layout[c].0, layout[c].1) == Some(c)
    requires layout[c].0 < PACKETS && layout[c].0 != VK_RETURN && layout[c].0 != VK_TAB && layout[c].0 != VK_SHIFT
    ensures var s := Struck(LayoutKey(layout[c].0, layout[c].1));
            ReadOne(s + tail, layout) == Some((c, |s|)) && (s + tail)[|s|..] == tail && |s| > 0
  {
    hide KeyChar;
    var vk := layout[c].0;
    var s := Struck(LayoutKey(vk, layout[c].1));
    if layout[c].1 {
      var inner := [Key(VK_SHIFT, false)] + tail;
      assert s + tail == [Key(VK_SHIFT, true)] + (Tap(vk) + inner);
      assert (s + tail)[1..] == Tap(vk) + inner;
      TapReads(vk, inner);
      assert (s + tail)[3] == Key(VK_SHIFT, false);
    } else {
      TapReads(vk, tail);
    }
  }

  lemma SentIs(c: char)
    ensures Sent(Utf16(c)) == if c as int < 0x1_0000 then Tap(PACKETS + Utf16(c)[0])
                              else Tap(PACKETS + Utf16(c)[0]) + Tap(PACKETS + Utf16(c)[1])
  {
    var units := Utf16(c);
    OneMoreUnit(units, 0);
    assert units[..0] == [] && Sent([]) == [];
    if |units| == 2 {
      OneMoreUnit(units, 1);
      assert units[..2] == units;
    } else {
      assert units[..1] == units;
    }
  }

  lemma PacketsRead(c: char, layout: Layout, tail: seq<Input>)
    ensures var s := Sent(Utf16(c));
            ReadOne(s + tail, layout) == Some((c, |s|)) && (s + tail)[|s|..] == tail && |s| > 0
  {
    hide Sent, KeyChar;
    var units := Utf16(c);
    CharIsScalar(c);
    SentIs(c);
    if c as int < 0x1_0000 {
      TapReads(PACKETS + units[0], tail);
    } else {
      var rest := Tap(PACKETS + units[1]) + tail;
      assert Sent(units) + tail == Tap(PACKETS + units[0]) + rest;
      TapReads(PACKETS + units[0], rest);
      TapReads(PACKETS + units[1], tail);
    }
  }

  lemma {:induction false} TypedReads(text: string, layout: Layout, tail: seq<Input>)
    requires Readable(layout)
    ensures ReadTyped(Typed(text, layout) + tail, layout) ==
            var rest := ReadTyped(tail, layout);
            if rest.None? then None else Some(WithoutReturns(text) + rest.value)
  {
    hide Struck, StrokeOf, ReadOne, Readable;
    if text == "" {
      assert Typed(text, layout) + tail == tail;
      assert ReadTyped(tail, layout).Some? ==> "" + ReadTyped(tail, layout).value == ReadTyped(tail, layout).value;
    } else {
      var n := |text| - 1;
      var c, stroke := text[n], Struck(StrokeOf(text[n], layout));
      assert Typed(text, layout) + tail == Typed(text[..n], layout) + (stroke + tail);
      TypedReads(text[..n], layout, stroke + tail);
      if c == '\r' {
        ReturnIsSkipped(layout);
        assert stroke + tail == tail && WithoutReturns(text[..n]) + "" == WithoutReturns(text[..n]);
      } else {
        StrokeReads(c, layout, tail);
        var rest := ReadTyped(tail, layout);
        assert rest.Some? ==> WithoutReturns(text[..n]) + ([c] + rest.value) == WithoutReturns(text) + rest.value;
      }
    }
  }

  lemma ReturnIsSkipped(layout: Layout)
    ensures Struck(StrokeOf('\r', layout)) == []
  {
  }

  /** Typed text reads back off the log, but for its carriage returns. */
  lemma TypingReads(text: string, layout: Layout)
    requires Readable(layout)
    ensures ReadTyped(Typed(text, layout), layout) == Some(WithoutReturns(text))
  {
    hide Typed;
    TypedReads(text, layout, []);
    assert Typed(text, layout) + [] == Typed(text, layout);
    assert WithoutReturns(text) + "" == WithoutReturns(text);
  }

  // ---- What a job shows -------------------------------------------------------------------

  // How often an event is in a log.
  ghost function Times(s: seq<Input>, e: Input): nat {
    multiset(s)[e]
  }

  function Positive(n: nat): nat {
    if n < 1 then 1 else n
  }

  // A click: exactly so many presses of the button, each let go at once, none of
  // another; at each press the modifiers are down and no other key of the job's; and
  // afterwards neither are they.
  ghost predicate ShowsClick(before: seq<Input>, s: seq<Input>, mods: seq<nat>, b: Button, n: nat) {
    && Times(s, Btn(b, true)) == n
    && (forall i :: 0 <= i < |s| && s[i].Btn? ==> s[i].button == b)
    && (forall i :: 0 <= i < |s| && s[i].Key? ==> s[i].vk in mods)
    && (forall i :: 0 <= i < |s| && s[i] == Btn(b, true) ==>
          && KeysDown(before + s[..i]) == KeysDown(before) + KeySet(mods)
          && i + 1 < |s| && s[i + 1] == Btn(b, false))
    && KeysDown(before + s) == KeysDown(before) - KeySet(mods)
    && ButtonsDown(before + s) == ButtonsDown(before) - {b}
  }

  function ChordKeys(ch: Chord): set<nat> {
    KeySet(ch.mods + ch.extra) + {ch.vk}
  }

  // A chord: its key pressed so many times, each time with exactly the chord's keys
  // added to what was down, no other key and no button; and afterwards none of them
  // down. (A chord whose key is also one of its modifiers presses it twice a time.)
  ghost predicate ShowsChord(before: seq<Input>, s: seq<Input>, ch: Chord, n: nat) {
    && (forall i :: 0 <= i < |s| ==> s[i].Key? && s[i].vk in ChordKeys(ch))
    && Times(s, Key(ch.vk, true)) == n * (if ch.vk in ch.mods + ch.extra then 2 else 1)
    && (ch.vk !in ch.mods + ch.extra ==>
          forall i :: 0 <= i < |s| && s[i] == Key(ch.vk, true) ==>
            KeysDown(before + s[..i + 1]) == KeysDown(before) + ChordKeys(ch))
    && (n > 0 ==> KeysDown(before + s) == KeysDown(before) - ChordKeys(ch))
  }

  /** What a job that succeeded shows in the log it left, given the log it met. */
  ghost predicate Shows(job: Job, before: seq<Input>, s: seq<Input>) {
    match job
    case Click(mods, b, count) => ShowsClick(before, s, mods, b, Positive(count))
    case Drag => s == [Btn(Left, true), Btn(Left, false)]
    case LeftDown => s == [Btn(Left, true)]
    case LeftUp => s == [Btn(Left, false)]
    case Type(text, layout) => Readable(layout) ==> ReadTyped(s, layout) == Some(WithoutReturns(text))
    case Paste => ShowsPaste(before, s)
    case Keys(chord, repeat) => ShowsChord(before, s, chord, Positive(repeat))
    case HoldKey(chord) => ShowsChord(before, s, chord, 1)
    case NoInput => s == []
  }

  // V pressed once, with exactly Control and it added to what was down.
  ghost predicate ShowsPaste(before: seq<Input>, s: seq<Input>) {
    && Times(s, Key(0x56, true)) == 1
    && (forall i :: 0 <= i < |s| ==> s[i].Key? && (s[i].vk == 0x11 || s[i].vk == 0x56))
    && (forall i :: 0 <= i < |s| && s[i] == Key(0x56, true) ==> KeysDown(before + s[..i + 1]) == KeysDown(before) + {0x11, 0x56})
    && KeysDown(before + s) == KeysDown(before) - {0x11, 0x56}
  }

  // ---- Clicks ---------------------------------------------------------------------------------

  lemma {:induction false} ClicksAre(b: Button, n: nat)
    ensures |Clicks(b, n)| == 2 * n && Times(Clicks(b, n), Btn(b, true)) == n
    ensures forall i :: 0 <= i < |Clicks(b, n)| ==> Clicks(b, n)[i] == Btn(b, i % 2 == 0)
  {
    if n > 0 {
      ClicksAre(b, n - 1);
      var front, pair := Clicks(b, n - 1), [Btn(b, true), Btn(b, false)];
      assert Clicks(b, n) == front + pair;
      hide Clicks;
      assert Times(pair, Btn(b, true)) == 1;
      SumOfTimes(front, pair, Btn(b, true));
      forall i | 0 <= i < |front + pair|
        ensures (front + pair)[i] == Btn(b, i % 2 == 0)
      {
      }
    }
  }

  lemma SumOfTimes(a: seq<Input>, b: seq<Input>, e: Input)
    ensures Times(a + b, e) == Times(a, e) + Times(b, e)
  {
  }

  lemma NotThere(s: seq<Input>, e: Input)
    requires e !in s
    ensures Times(s, e) == 0
  {
  }

  lemma {:induction false} ButtonsKeepKeys(log: seq<Input>, s: seq<Input>)
    requires forall i :: 0 <= i < |s| ==> s[i].Btn?
    ensures KeysDown(log + s) == KeysDown(log)
  {
    if s == [] {
      assert log + s == log;
    } else {
      var n := |s| - 1;
      ButtonsKeepKeys(log, s[..n]);
      OneMore(log + s[..n], s[n]);
      assert log + s == log + s[..n] + [s[n]];
    }
  }

  lemma KeysOnly(keys: seq<nat>)
    ensures forall i :: 0 <= i < |Presses(keys)| ==> Presses(keys)[i].Key? && Presses(keys)[i].vk in keys && Presses(keys)[i].down
    ensures forall i :: 0 <= i < |Releases(keys)| ==> Releases(keys)[i].Key? && Releases(keys)[i].vk in keys && !Releases(keys)[i].down
    ensures forall b, d :: Btn(b, d) !in Presses(keys) && Btn(b, d) !in Releases(keys)
  {
  }

  // Where an event of three parts is.
  lemma PartOf(p: seq<Input>, c: seq<Input>, r: seq<Input>, i: nat)
    requires i < |p + c + r|
    ensures i < |p| ==> (p + c + r)[i] in p
    ensures |p| <= i < |p| + |c| ==> (p + c + r)[i] == c[i - |p|]
    ensures |p| + |c| <= i ==> (p + c + r)[i] in r
  {
    var s := p + c + r;
    if i < |p| {
      assert s[i] == p[i];
    } else if i >= |p| + |c| {
      assert s[i] == r[i - |p| - |c|];
    }
  }

  lemma ClickMoments(before: seq<Input>, mods: seq<nat>, b: Button, n: nat, i: nat)
    requires var s := Presses(mods) + Clicks(b, n) + Releases(mods); i < |s| && s[i] == Btn(b, true)
    ensures var s := Presses(mods) + Clicks(b, n) + Releases(mods);
            KeysDown(before + s[..i]) == KeysDown(before) + KeySet(mods) && i + 1 < |s| && s[i + 1] == Btn(b, false)
  {
    hide Presses, Releases, Clicks, KeysDown, ButtonsDown, KeySet, Times;
    var p, c, r := Presses(mods), Clicks(b, n), Releases(mods);
    var s := p + c + r;
    KeysOnly(mods);
    PartOf(p, c, r, i);
    ClicksAre(b, n);
    AfterPresses(before, mods);
    var k := i - |p|;
    ButtonsKeepKeys(before + p, c[..k]);
    assert before + s[..i] == before + p + c[..k];
    assert s[i + 1] == c[k + 1];
  }

  lemma ClickEvents(mods: seq<nat>, b: Button, n: nat)
    ensures var s := Presses(mods) + Clicks(b, n) + Releases(mods);
            && Times(s, Btn(b, true)) == n
            && (forall i :: 0 <= i < |s| && s[i].Btn? ==> s[i].button == b)
            && (forall i :: 0 <= i < |s| && s[i].Key? ==> s[i].vk in mods)
  {
    var p, c, r := Presses(mods), Clicks(b, n), Releases(mods);
    var s := p + c + r;
    KeysOnly(mods);
    ClicksAre(b, n);
    hide Presses, Releases, Clicks;
    SumOfTimes(p, c, Btn(b, true));
    SumOfTimes(p + c, r, Btn(b, true));
    NotThere(p, Btn(b, true));
    NotThere(r, Btn(b, true));
    hide Times;
    forall i | 0 <= i < |s|
      ensures (s[i].Btn? ==> s[i].button == b) && (s[i].Key? ==> s[i].vk in mods)
    {
      PartOf(p, c, r, i);
    }
  }

  lemma ClickShows(before: seq<Input>, mods: seq<nat>, b: Button, n: nat)
    requires n > 0
    ensures ShowsClick(before, Presses(mods) + Clicks(b, n) + Releases(mods), mods, b, n)
  {
    hide Presses, Releases, Clicks, KeysDown, ButtonsDown, Times, KeySet;
    var s := Presses(mods) + Clicks(b, n) + Releases(mods);
    ClickEvents(mods, b, n);
    forall i | 0 <= i < |s| && s[i] == Btn(b, true)
      ensures KeysDown(before + s[..i]) == KeysDown(before) + KeySet(mods) && i + 1 < |s| && s[i + 1] == Btn(b, false)
    {
      ClickMoments(before, mods, b, n, i);
    }
    ClickLeaves(before, mods, b, n);
  }

  lemma ClickLeaves(before: seq<Input>, mods: seq<nat>, b: Button, n: nat)
    requires n > 0
    ensures var s := Presses(mods) + Clicks(b, n) + Releases(mods);
            && KeysDown(before + s) == KeysDown(before) - KeySet(mods)
            && ButtonsDown(before + s) == ButtonsDown(before) - {b}
  {
    hide Presses, Releases, Clicks, KeysDown, ButtonsDown;
    var p, c, r := Presses(mods), Clicks(b, n), Releases(mods);
    AfterPresses(before, mods);
    AfterClicks(before + p, b, n);
    AfterReleases(before + p + c, mods);
    assert before + (p + c + r) == before + p + c + r;
  }

  // ---- Chords --------------------------------------------------------------------------------

  lemma {:induction false} ModifiersAre(mods: seq<nat>)
    ensures KeySet(Modifiers(mods)) == KeySet(mods)
    ensures forall i, j :: 0 <= i < j < |Modifiers(mods)| ==> Modifiers(mods)[i] != Modifiers(mods)[j]
  {
    if mods != [] {
      var n := |mods| - 1;
      ModifiersAre(mods[..n]);
      assert mods == mods[..n] + [mods[n]];
      assert KeySet(mods) == KeySet(mods[..n]) + {mods[n]};
    }
  }

  lemma HeldIs(ch: Chord)
    ensures KeySet(Held(ch)) == ChordKeys(ch)
    ensures multiset(Held(ch))[ch.vk] == if ch.vk in ch.mods + ch.extra then 2 else 1
    ensures ch.vk !in ch.mods + ch.extra ==> forall i :: 0 <= i < |Held(ch)| && Held(ch)[i] == ch.vk ==> i == |Held(ch)| - 1
  {
    var mods := Modifiers(ch.mods + ch.extra);
    ModifiersAre(ch.mods + ch.extra);
    assert ch.vk in mods <==> ch.vk in KeySet(mods);
    assert ch.vk in ch.mods + ch.extra <==> ch.vk in KeySet(ch.mods + ch.extra);
    OnceOnly(mods, ch.vk);
    assert Held(ch) == mods + [ch.vk];
  }

  lemma {:induction false} OnceOnly(keys: seq<nat>, k: nat)
    requires forall i, j :: 0 <= i < j < |keys| ==> keys[i] != keys[j]
    ensures multiset(keys)[k] == if k in keys then 1 else 0
  {
    if keys != [] {
      var n := |keys| - 1;
      OnceOnly(keys[..n], k);
      assert keys == keys[..n] + [keys[n]];
    }
  }

  lemma {:induction false} PressesAre(keys: seq<nat>, k: nat)
    ensures Times(Presses(keys), Key(k, true)) == multiset(keys)[k] && Times(Releases(keys), Key(k, true)) == 0
  {
    KeysOnly(keys);
    NotThere(Releases(keys), Key(k, true));
    if keys != [] {
      var n := |keys| - 1;
      PressesAre(keys[..n], k);
      assert Presses(keys) == Presses(keys[..n]) + [Key(keys[n], true)];
      assert keys == keys[..n] + [keys[n]];
    }
  }

  lemma {:induction false} ChordShows(before: seq<Input>, ch: Chord, n: nat)
    ensures ShowsChord(before, Chorded(ch, n), ch, n)
  {
    if n > 0 {
      ChordShows(before, ch, n - 1);
      OneMoreChord(before, Chorded(ch, n - 1), ch, n - 1);
    }
  }

  lemma OneMoreChord(before: seq<Input>, front: seq<Input>, ch: Chord, n: nat)
    requires ShowsChord(before, front, ch, n) && (n == 0 ==> front == [])
    ensures ShowsChord(before, front + (Presses(Held(ch)) + Releases(Held(ch))), ch, n + 1)
  {
    var keys := Held(ch);
    hide Presses, Releases, Held, KeysDown, ButtonsDown, Times, ChordKeys, KeySet;
    var p, r := Presses(keys), Releases(keys);
    var s := front + (p + r);
    HeldIs(ch);
    ChordTimes(front, ch, n);
    assert s == front + p + r;
    ChordLeavesNothing(before + front, keys);
    assert before + s == before + front + p + r;
    assert n == 0 ==> before + front == before;
    ChordEvents(front, ch);
    if ch.vk !in ch.mods + ch.extra {
      forall i | 0 <= i < |s| && s[i] == Key(ch.vk, true)
        ensures KeysDown(before + s[..i + 1]) == KeysDown(before) + ChordKeys(ch)
      {
        ChordMoment(before, front, ch, n, i);
      }
    }
  }

  lemma ChordTimes(front: seq<Input>, ch: Chord, n: nat)
    requires Times(front, Key(ch.vk, true)) == n * (if ch.vk in ch.mods + ch.extra then 2 else 1)
    ensures Times(front + (Presses(Held(ch)) + Releases(Held(ch))), Key(ch.vk, true)) ==
            (n + 1) * (if ch.vk in ch.mods + ch.extra then 2 else 1)
  {
    var p, r := Presses(Held(ch)), Releases(Held(ch));
    HeldIs(ch);
    PressesAre(Held(ch), ch.vk);
    hide Presses, Releases, Held, Times;
    SumOfTimes(front, p + r, Key(ch.vk, true));
    SumOfTimes(p, r, Key(ch.vk, true));
  }

  lemma ChordEvents(front: seq<Input>, ch: Chord)
    requires forall i :: 0 <= i < |front| ==> front[i].Key? && front[i].vk in ChordKeys(ch)
    ensures var s := front + (Presses(Held(ch)) + Releases(Held(ch)));
            forall i :: 0 <= i < |s| ==> s[i].Key? && s[i].vk in ChordKeys(ch)
  {
    var p, r := Presses(Held(ch)), Releases(Held(ch));
    HeldIs(ch);
    KeysOnly(Held(ch));
    assert forall k :: k in Held(ch) ==> k in KeySet(Held(ch));
    hide Presses, Releases, Held, ChordKeys;
    forall i | 0 <= i < |front + (p + r)|
      ensures (front + (p + r))[i].Key? && (front + (p + r))[i].vk in ChordKeys(ch)
    {
      assert front + (p + r) == front + p + r;
      PartOf(front, p, r, i);
    }
  }

  lemma ChordMoment(before: seq<Input>, front: seq<Input>, ch: Chord, n: nat, i: nat)
    requires ShowsChord(before, front, ch, n) && (n == 0 ==> front == []) && ch.vk !in ch.mods + ch.extra
    requires var s := front + (Presses(Held(ch)) + Releases(Held(ch))); i < |s| && s[i] == Key(ch.vk, true)
    ensures var s := front + (Presses(Held(ch)) + Releases(Held(ch)));
            KeysDown(before + s[..i + 1]) == KeysDown(before) + ChordKeys(ch)
  {
    hide KeysDown, Held, ChordKeys, KeySet, Releases, Times;
    var p, r := Presses(Held(ch)), Releases(Held(ch));
    var s := front + (p + r);
    assert s == front + p + r;
    HeldIs(ch);
    KeysOnly(Held(ch));
    if i < |front| {
      assert s[i] == front[i] && s[..i + 1] == front[..i + 1];
    } else {
      PartOf(front, p, r, i);
      assert p[i - |front|].vk == Held(ch)[i - |front|];
      assert s[..i + 1] == front + p;
      AfterPresses(before + front, Held(ch));
      assert before + s[..i + 1] == before + front + p;
      assert n == 0 ==> before + front == before;
    }
  }

  lemma PasteShows(before: seq<Input>)
    ensures ShowsPaste(before, Chorded(PASTE, 1))
  {
    ChordShows(before, PASTE, 1);
    assert ChordKeys(PASTE) == {0x11, 0x56};
    assert PASTE.mods + PASTE.extra == [0x11];
    hide Chorded, KeysDown;
  }

  /** A job's inputs show what the job asks for, whatever the log they meet. */
  lemma InputsShow(job: Job, before: seq<Input>)
    ensures Shows(job, before, Inputs(job))
  {
    hide ShowsClick, ShowsChord, ShowsPaste, Chorded, Presses, Releases, Clicks, ReadTyped, Typed, Readable, KeysDown;
    match job
    case Click(mods, b, count) => ClickShows(before, mods, b, Positive(count));
    case Type(text, layout) => if Readable(layout) { TypingReads(text, layout); }
    case Paste => PasteShows(before);
    case Keys(chord, repeat) => ChordShows(before, chord, Positive(repeat));
    case HoldKey(chord) => OneChord(chord); ChordShows(before, chord, 1);
    case _ =>
  }

  lemma OneChord(ch: Chord)
    ensures Chorded(ch, 1) == Presses(Held(ch)) + Releases(Held(ch))
  {
    assert Chorded(ch, 0) == [];
  }
}
