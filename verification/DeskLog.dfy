/** What the keyboard and mouse hold after a log of accepted inputs, and what each
    job writes when nothing is refused (desktop-shell/src/input.rs, computer.rs). */
module DeskLog {

  datatype Button = Left | Right | Middle

  // One event Windows accepted.
  datatype Input = Key(vk: nat, down: bool) | Btn(button: Button, down: bool)

  const VK_TAB: nat := 0x09
  const VK_RETURN: nat := 0x0D
  const VK_SHIFT: nat := 0x10
  const VK_CONTROL: nat := 0x11
  const VK_V: nat := 0x56
  // Keys are 16-bit; from here on they stand for Unicode packets carrying a unit.
  const PACKETS: nat := 0x1_0000
  const MAX_TYPE: nat := 2_000

  // ---- What is down after a log of accepted events ------------------------------

  function KeysDown(log: seq<Input>): set<nat> {
    if log == [] then {}
    else
      var before, e := KeysDown(log[..|log| - 1]), log[|log| - 1];
      match e
      case Key(vk, down) => if down then before + {vk} else before - {vk}
      case Btn(_, _) => before
  }

  function ButtonsDown(log: seq<Input>): set<Button> {
    if log == [] then {}
    else
      var before, e := ButtonsDown(log[..|log| - 1]), log[|log| - 1];
      match e
      case Btn(b, down) => if down then before + {b} else before - {b}
      case Key(_, _) => before
  }

  predicate NothingDown(log: seq<Input>) {
    KeysDown(log) == {} && ButtonsDown(log) == {}
  }

  function KeySet(keys: seq<nat>): set<nat> {
    set k | k in keys
  }

  function ButtonSet(buttons: seq<Button>): set<Button> {
    set b | b in buttons
  }

  function Without(buttons: seq<Button>, b: Button): (r: seq<Button>)
    ensures forall x :: x in r <==> x in buttons && x != b
  {
    if buttons == [] then []
    else
      assert buttons == [buttons[0]] + buttons[1..];
      (if buttons[0] == b then [] else [buttons[0]]) + Without(buttons[1..], b)
  }

  function Presses(keys: seq<nat>): seq<Input> {
    seq(|keys|, i requires 0 <= i < |keys| => Key(keys[i], true))
  }

  // Last pressed first.
  function Releases(keys: seq<nat>): seq<Input> {
    seq(|keys|, i requires 0 <= i < |keys| => Key(keys[|keys| - 1 - i], false))
  }

  lemma OneMore(log: seq<Input>, e: Input)
    ensures KeysDown(log + [e]) ==
            if e.Key? then (if e.down then KeysDown(log) + {e.vk} else KeysDown(log) - {e.vk}) else KeysDown(log)
    ensures ButtonsDown(log + [e]) ==
            if e.Btn? then (if e.down then ButtonsDown(log) + {e.button} else ButtonsDown(log) - {e.button})
            else ButtonsDown(log)
  {
    assert (log + [e])[..|log|] == log;
  }

  lemma {:induction false} AfterPresses(log: seq<Input>, keys: seq<nat>)
    ensures KeysDown(log + Presses(keys)) == KeysDown(log) + KeySet(keys)
    ensures ButtonsDown(log + Presses(keys)) == ButtonsDown(log)
  {
    if keys == [] {
      assert log + Presses(keys) == log;
    } else {
      var n := |keys| - 1;
      AfterPresses(log, keys[..n]);
      OneMore(log + Presses(keys[..n]), Key(keys[n], true));
      assert log + Presses(keys) == log + Presses(keys[..n]) + [Key(keys[n], true)];
      assert keys == keys[..n] + [keys[n]];
    }
  }

  lemma {:induction false} AfterReleases(log: seq<Input>, keys: seq<nat>)
    ensures KeysDown(log + Releases(keys)) == KeysDown(log) - KeySet(keys)
    ensures ButtonsDown(log + Releases(keys)) == ButtonsDown(log)
  {
    if keys == [] {
      assert log + Releases(keys) == log;
    } else {
      AfterReleases(log, keys[1..]);
      OneMore(log + Releases(keys[1..]), Key(keys[0], false));
      assert log + Releases(keys) == log + Releases(keys[1..]) + [Key(keys[0], false)];
      assert keys == [keys[0]] + keys[1..];
    }
  }

  /** A chord pressed and let go leaves the keyboard as it found it, but for the
      chord's own keys, which end up. */
  lemma ChordLeavesNothing(log: seq<Input>, keys: seq<nat>)
    ensures KeysDown(log + Presses(keys) + Releases(keys)) == KeysDown(log) - KeySet(keys)
    ensures ButtonsDown(log + Presses(keys) + Releases(keys)) == ButtonsDown(log)
  {
    AfterPresses(log, keys);
    AfterReleases(log + Presses(keys), keys);
  }

  // ---- Keyboard and mouse ----------------------------------------------------------

  // A chord with its key resolved on the current layout, which may itself want
  // modifiers.
  datatype Chord = Chord(mods: seq<nat>, extra: seq<nat>, vk: nat)

  // The keys a chord holds, each modifier once, the key last.
  function Modifiers(mods: seq<nat>): seq<nat> {
    if mods == [] then []
    else
      var n := |mods| - 1;
      var before := Modifiers(mods[..n]);
      if mods[n] in before then before else before + [mods[n]]
  }

  function Held(ch: Chord): seq<nat> {
    Modifiers(ch.mods + ch.extra) + [ch.vk]
  }

  // One typed character: nothing, a key of the layout, or a Unicode packet for each
  // of its UTF-16 units.
  datatype Stroke = Skip | LayoutKey(vk: nat, shift: bool) | Packets(units: seq<nat>)

  // The keys the current layout has for characters, with at most Shift.
  type Layout = map<char, (nat, bool)>

  function StrokeOf(c: char, layout: Layout): Stroke {
    if c == '\r' then Skip
    else if c == '\n' then LayoutKey(VK_RETURN, false)
    else if c == '\t' then LayoutKey(VK_TAB, false)
    else if c in layout then LayoutKey(layout[c].0, layout[c].1)
    else Packets(Utf16(c))
  }

  // The UTF-16 units of a character.
  function Utf16(c: char): seq<nat> {
    if c as int < 0x1_0000 then [c as int]
    else [0xD800 + (c as int - 0x1_0000) / 0x400, 0xDC00 + (c as int - 0x1_0000) % 0x400]
  }

  // ---- What each input writes, when nothing is refused ------------------------------

  function Tap(vk: nat): seq<Input> {
    [Key(vk, true), Key(vk, false)]
  }

  function Sent(units: seq<nat>): seq<Input> {
    if units == [] then [] else Sent(units[..|units| - 1]) + Tap(PACKETS + units[|units| - 1])
  }

  function Clicks(b: Button, n: nat): seq<Input> {
    if n == 0 then [] else Clicks(b, n - 1) + [Btn(b, true), Btn(b, false)]
  }

  function Struck(stroke: Stroke): seq<Input> {
    match stroke
    case Skip => []
    case LayoutKey(vk, shift) => if shift then [Key(VK_SHIFT, true)] + Tap(vk) + [Key(VK_SHIFT, false)] else Tap(vk)
    case Packets(units) => Sent(units)
  }

  function Typed(text: string, layout: Layout): seq<Input> {
    if text == "" then []
    else Typed(text[..|text| - 1], layout) + Struck(StrokeOf(text[|text| - 1], layout))
  }

  function Chorded(ch: Chord, repeat: nat): seq<Input> {
    if repeat == 0 then [] else Chorded(ch, repeat - 1) + (Presses(Held(ch)) + Releases(Held(ch)))
  }

  lemma OneMoreUnit(units: seq<nat>, i: nat)
    requires i < |units|
    ensures Sent(units[..i + 1]) == Sent(units[..i]) + Tap(PACKETS + units[i])
  {
    assert units[..i + 1][..i] == units[..i];
  }

  lemma TypedNothing(text: string, layout: Layout)
    ensures Typed(text[..0], layout) == [] && Struck(Skip) == []
  {
  }

  lemma OneMoreTyped(text: string, i: nat, layout: Layout)
    requires i < |text|
    ensures Typed(text[..i + 1], layout) == Typed(text[..i], layout) + Struck(StrokeOf(text[i], layout))
  {
    hide Struck;
    assert text[..i + 1][..i] == text[..i];
  }

  lemma {:induction false} AfterClicks(log: seq<Input>, b: Button, n: nat)
    ensures KeysDown(log + Clicks(b, n)) == KeysDown(log)
    ensures ButtonsDown(log + Clicks(b, n)) == if n == 0 then ButtonsDown(log) else ButtonsDown(log) - {b}
  {
    if n == 0 {
      assert log + Clicks(b, n) == log;
    } else {
      AfterClicks(log, b, n - 1);
      var before := log + Clicks(b, n - 1);
      OneMore(before, Btn(b, true));
      OneMore(before + [Btn(b, true)], Btn(b, false));
      assert log + Clicks(b, n) == before + [Btn(b, true)] + [Btn(b, false)];
    }
  }

  lemma AfterTap(log: seq<Input>, vk: nat)
    ensures KeysDown(log + Tap(vk)) == KeysDown(log) - {vk} && ButtonsDown(log + Tap(vk)) == ButtonsDown(log)
    ensures log + [] == log
  {
    OneMore(log, Key(vk, true));
    OneMore(log + [Key(vk, true)], Key(vk, false));
    assert log + Tap(vk) == log + [Key(vk, true)] + [Key(vk, false)];
  }

  // ---- Jobs ------------------------------------------------------------------------------

  datatype Job =
    | Click(mods: seq<nat>, button: Button, count: nat)
    | Drag
    | LeftDown
    | LeftUp
    | Type(text: string, layout: Layout)
    | Paste
    | Keys(chord: Chord, repeat: nat)
    | HoldKey(chord: Chord)
    | NoInput   // looking, waiting, moving, scrolling, windows, clipboard, open

  // What a job that succeeds has put in the queue.
  function Inputs(job: Job): seq<Input> {
    match job
    case Click(mods, b, count) => Presses(mods) + Clicks(b, if count < 1 then 1 else count) + Releases(mods)
    case Drag => [Btn(Left, true), Btn(Left, false)]
    case LeftDown => [Btn(Left, true)]
    case LeftUp => [Btn(Left, false)]
    case Type(text, layout) => Typed(text, layout)
    case Paste => Chorded(PASTE, 1)
    case Keys(chord, repeat) => Chorded(chord, if repeat < 1 then 1 else repeat)
    case HoldKey(chord) => Presses(Held(chord)) + Releases(Held(chord))
    case NoInput => []
  }

  // The buttons a successful job leaves held.
  function StillHeld(job: Job, buttons: seq<Button>): seq<Button> {
    match job
    case LeftDown => buttons + [Left]
    case LeftUp => Without(buttons, Left)
    case Drag => []
    case _ => buttons
  }

  const PASTE: Chord := Chord([VK_CONTROL], [], VK_V)

  lemma LeftOnTheBooks(log: seq<Input>, buttons: seq<Button>, down: bool)
    requires ButtonsDown(log) <= ButtonSet(buttons)
    ensures KeysDown(log + [Btn(Left, down)]) == KeysDown(log)
    ensures ButtonsDown(log + [Btn(Left, down)]) <= ButtonSet(if down then buttons + [Left] else Without(buttons, Left))
  {
    hide KeysDown, ButtonsDown, Without;
    OneMore(log, Btn(Left, down));
  }
}
