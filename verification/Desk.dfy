/** The computer desk: jobs that press keys and buttons, any press of which may
    be refused midway (desktop-shell/src/input.rs and computer.rs). */
module Desk {
  import opened Wrappers
  import opened DeskLog
  import opened DeskJobs

  /** The input queue: presses may be refused, releases always land. */
  class Queue {
    var log: seq<Input>

    constructor ()
      ensures log == []
    {
      log := [];
    }

    method Send(e: Input) returns (ok: bool)
      modifies this
      ensures ok ==> log == old(log) + [e]
      ensures !ok ==> log == old(log) && e.down
      ensures ok ==> KeysDown(log) == KeysDown(old(log) + [e]) && ButtonsDown(log) == ButtonsDown(old(log) + [e])
    {
      var refused: bool := *;
      if refused && e.down {
        return false;
      }
      log := log + [e];
      return true;
    }

    method Release(held: seq<nat>)
      modifies this
      ensures log == old(log) + Releases(held)
    {
      var i := |held|;
      while i > 0
        invariant 0 <= i <= |held|
        invariant log == old(log) + Releases(held)[..|held| - i]
      {
        i := i - 1;
        var _ := Send(Key(held[i], false));
      }
      assert Releases(held)[..|held|] == Releases(held);
    }

    method ChordDown(ch: Chord) returns (held: Option<seq<nat>>)
      modifies this
      ensures held.Some? ==> held.value == Held(ch) && log == old(log) + Presses(held.value)
      ensures held.None? ==> exists pressed :: log == old(log) + Presses(pressed) + Releases(pressed)
    {
      var mods, pressed: seq<nat> := ch.mods + ch.extra, [];
      var i := 0;
      while i < |mods|
        invariant 0 <= i <= |mods|
        invariant pressed == Modifiers(mods[..i])
        invariant log == old(log) + Presses(pressed)
      {
        assert mods[..i + 1][..i] == mods[..i];
        if mods[i] !in pressed {
          var ok := Send(Key(mods[i], true));
          if !ok {
            Release(pressed);
            return None;
          }
          assert Presses(pressed + [mods[i]]) == Presses(pressed) + [Key(mods[i], true)];
          pressed := pressed + [mods[i]];
        }
        i := i + 1;
      }
      assert mods[..|mods|] == mods;
      var ok := Send(Key(ch.vk, true));
      if !ok {
        Release(pressed);
        return None;
      }
      assert Presses(pressed + [ch.vk]) == Presses(pressed) + [Key(ch.vk, true)];
      return Some(pressed + [ch.vk]);
    }

    /** A chord: pressed in order and let go in reverse, or, when a press is
        refused, exactly what was pressed let go in reverse. */
    method PressChord(ch: Chord) returns (ok: bool)
      modifies this
      ensures ok ==> log == old(log) + Presses(Held(ch)) + Releases(Held(ch))
      ensures !ok ==> exists pressed :: log == old(log) + Presses(pressed) + Releases(pressed)
    {
      var held := ChordDown(ch);
      if held.None? {
        return false;
      }
      var keys := held.value;
      var last := |keys| - 1;
      var _ := Send(Key(keys[last], false));
      Release(keys[..last]);
      assert Releases(keys) == [Key(keys[last], false)] + Releases(keys[..last]);
      return true;
    }

    method PressAndRelease(vk: nat) returns (ok: bool)
      modifies this
      ensures log == old(log) + if ok then Tap(vk) else []
    {
      ok := Send(Key(vk, true));
      if ok {
        ok := Send(Key(vk, false));
      }
    }

    /** As many whole clicks as were not refused; all of them, at least one, when
        none was. */
    method ClickButton(b: Button, count: nat) returns (ok: bool, ghost clicked: nat)
      modifies this
      ensures log == old(log) + Clicks(b, clicked)
      ensures ok ==> clicked == if count < 1 then 1 else count
    {
      var n := if count < 1 then 1 else count;
      var i := 0;
      while i < n
        invariant i <= n && log == old(log) + Clicks(b, i)
      {
        ok := Send(Btn(b, true));
        if !ok {
          return false, i;
        }
        ok := Send(Btn(b, false));
        i := i + 1;
      }
      return true, n;
    }

    method TypeText(text: string, layout: Layout) returns (ok: bool)
      requires KeysDown(log) == {}
      modifies this
      ensures KeysDown(log) == {} && ButtonsDown(log) == ButtonsDown(old(log))
      ensures ok ==> |text| <= MAX_TYPE && log == old(log) + Typed(text, layout)
    {
      hide KeysDown, ButtonsDown, StrokeOf, Struck, Typed;
      TypedNothing(text, layout);
      var i := 0;
      while i < |text|
        invariant i <= |text| && i <= MAX_TYPE
        invariant KeysDown(log) == {} && ButtonsDown(log) == ButtonsDown(old(log))
        invariant log == old(log) + Typed(text[..i], layout)
      {
        if i >= MAX_TYPE {
          return false;
        }
        OneMoreTyped(text, i, layout);
        var stroke := StrokeOf(text[i], layout);
        if stroke != Skip {
          ok := TypeOne(stroke);
          if !ok {
            return false;
          }
        }
        i := i + 1;
      }
      assert text[..i] == text;
      return true;
    }

    method TypeOne(stroke: Stroke) returns (ok: bool)
      requires stroke != Skip && KeysDown(log) == {}
      modifies this
      ensures KeysDown(log) == {} && ButtonsDown(log) == ButtonsDown(old(log))
      ensures ok ==> log == old(log) + Struck(stroke)
    {
      match stroke
      case LayoutKey(vk, shift) => ok := TypeKey(vk, shift);
      case Packets(units) => ok := TypePackets(units);
    }

    method TypeKey(vk: nat, shift: bool) returns (ok: bool)
      requires KeysDown(log) == {}
      modifies this
      ensures KeysDown(log) == {} && ButtonsDown(log) == ButtonsDown(old(log))
      ensures ok ==> log == old(log) + Struck(LayoutKey(vk, shift))
    {
      hide KeysDown, ButtonsDown, Tap;
      if shift {
        OneMore(log, Key(VK_SHIFT, true));
        ok := Send(Key(VK_SHIFT, true));
        if !ok {
          return false;
        }
      }
      AfterTap(log, vk);
      ok := PressAndRelease(vk);
      if shift {
        OneMore(log, Key(VK_SHIFT, false));
        var _ := Send(Key(VK_SHIFT, false));
      }
    }

    method TypePackets(units: seq<nat>) returns (ok: bool)
      requires KeysDown(log) == {}
      modifies this
      ensures KeysDown(log) == {} && ButtonsDown(log) == ButtonsDown(old(log))
      ensures ok ==> log == old(log) + Struck(Packets(units))
    {
      hide KeysDown, ButtonsDown, Tap;
      for i := 0 to |units|
        invariant log == old(log) + Sent(units[..i])
        invariant KeysDown(log) == {} && ButtonsDown(log) == ButtonsDown(old(log))
      {
        OneMoreUnit(units, i);
        AfterTap(log, PACKETS + units[i]);
        ok := PressAndRelease(PACKETS + units[i]);
        if !ok {
          return false;
        }
      }
      assert units[..|units|] == units;
      return true;
    }
  }

  // ---- The desk -------------------------------------------------------------------------

  class ComputerDesk {
    const queue: Queue
    var heldKeys: seq<nat>
    var heldButtons: seq<Button>

    constructor ()
      ensures fresh(queue) && Between() && NothingDown(queue.log)
    {
      queue := new Queue();
      heldKeys, heldButtons := [], [];
    }

    // What is down is on the desk's books.
    ghost predicate Booked()
      reads this, queue
    {
      && KeysDown(queue.log) <= KeySet(heldKeys)
      && ButtonsDown(queue.log) <= ButtonSet(heldButtons)
      && forall b :: b in heldButtons ==> b == Left
    }

    // Between jobs no key is down, and a button only if the desk holds it.
    ghost predicate Between()
      reads this, queue
    {
      Booked() && heldKeys == []
    }

    method ReleaseAll()
      requires Booked()
      modifies this, queue
      ensures Between() && NothingDown(queue.log) && heldButtons == []
    {
      DropModifiers();
      while heldButtons != []
        invariant Between()
        decreases |heldButtons|
      {
        DropButton();
      }
    }

    method DropButton()
      requires Between() && heldButtons != []
      modifies this, queue
      ensures Between() && heldButtons == old(heldButtons)[1..]
    {
      var b := heldButtons[0];
      OneMore(queue.log, Btn(b, false));
      assert b in heldButtons && forall x :: x in heldButtons[1..] ==> x in heldButtons;
      assert forall x :: x in ButtonsDown(queue.log) ==> x in ButtonSet(heldButtons);
      var _ := queue.Send(Btn(b, false));
      heldButtons := heldButtons[1..];
    }

    // Modifiers go down one by one, each booked once it is down.
    method HoldModifiers(mods: seq<nat>) returns (ok: bool)
      requires Between()
      modifies this, queue
      ensures Booked() && heldButtons == old(heldButtons)
      ensures ok ==> heldKeys == mods && queue.log == old(queue.log) + Presses(mods)
    {
      var i := 0;
      while i < |mods|
        invariant 0 <= i <= |mods| && Booked() && heldButtons == old(heldButtons)
        invariant heldKeys == mods[..i] && queue.log == old(queue.log) + Presses(mods[..i])
      {
        assert Presses(mods[..i + 1]) == Presses(mods[..i]) + [Key(mods[i], true)];
        assert mods[..i + 1] == mods[..i] + [mods[i]];
        OneMore(queue.log, Key(mods[i], true));
        ok := queue.Send(Key(mods[i], true));
        if !ok {
          return false;
        }
        ghost var before := heldKeys;
        heldKeys := heldKeys + [mods[i]];
        assert KeySet(heldKeys) == KeySet(before) + {mods[i]};
        i := i + 1;
      }
      assert mods[..|mods|] == mods;
      return true;
    }

    method DropModifiers()
      requires Booked()
      modifies this, queue
      ensures Between() && heldButtons == old(heldButtons)
      ensures queue.log == old(queue.log) + Releases(old(heldKeys))
    {
      AfterReleases(queue.log, heldKeys);
      queue.Release(heldKeys);
      heldKeys := [];
    }

    method DoClick(mods: seq<nat>, b: Button, count: nat) returns (ok: bool)
      requires Between()
      modifies this, queue
      ensures Booked() && (ok ==> heldKeys == []) && heldButtons == old(heldButtons)
      ensures ok ==> queue.log == old(queue.log) + Inputs(Click(mods, b, count))
    {
      hide KeysDown, ButtonsDown, Presses, Releases, Clicks;
      ok := HoldModifiers(mods);
      if !ok {
        return false;
      }
      ghost var before := queue.log;
      ghost var n: nat;
      ok, n := queue.ClickButton(b, count);
      AfterClicks(before, b, n);
      DropModifiers();
      if !ok {
        return false;
      }
      ok := *;   // the picture taken afterwards may fail
    }

    method DoDrag() returns (ok: bool)
      requires Between()
      modifies this, queue
      ensures Between()
      ensures ok ==> queue.log == old(queue.log) + Inputs(Drag) && heldButtons == []
    {
      OneMore(queue.log, Btn(Left, true));
      ok := queue.Send(Btn(Left, true));
      if !ok {
        return false;
      }
      heldButtons := heldButtons + [Left];
      var i := 1;
      while i <= 8
        invariant Between() && queue.log == old(queue.log) + [Btn(Left, true)]
      {
        ok := *;   // a move may fail
        if !ok {
          return false;
        }
        i := i + 1;
      }
      OneMore(queue.log, Btn(Left, false));
      var _ := queue.Send(Btn(Left, false));
      heldButtons := [];
      ok := *;
    }

    method DoLeft(down: bool) returns (ok: bool)
      requires Between()
      modifies this, queue
      ensures Between()
      ensures ok ==> queue.log == old(queue.log) + [Btn(Left, down)]
      ensures ok ==> heldButtons == if down then old(heldButtons) + [Left] else Without(old(heldButtons), Left)
    {
      hide KeysDown, ButtonsDown, ButtonSet;
      LeftOnTheBooks(queue.log, heldButtons, down);
      ok := queue.Send(Btn(Left, down));
      if !ok {
        return false;
      }
      if down {
        heldButtons := heldButtons + [Left];
      } else {
        heldButtons := Without(heldButtons, Left);
      }
    }

    method DoKeys(chord: Chord, repeat: nat) returns (ok: bool)
      requires Between()
      modifies queue
      ensures Between()
      ensures ok ==> queue.log == old(queue.log) + Chorded(chord, repeat)
    {
      hide KeysDown, ButtonsDown, Presses, Releases, Held;
      var i := 0;
      while i < repeat
        invariant Between() && i <= repeat && queue.log == old(queue.log) + Chorded(chord, i)
      {
        ghost var before := queue.log;
        ok := queue.PressChord(chord);
        ghost var pressed :| queue.log == before + Presses(pressed) + Releases(pressed);
        ChordLeavesNothing(before, pressed);
        if !ok {
          return false;
        }
        i := i + 1;
      }
      ok := *;
    }

    method DoHold(chord: Chord) returns (ok: bool)
      requires Between()
      modifies this, queue
      ensures Between() && heldButtons == old(heldButtons)
      ensures ok ==> queue.log == old(queue.log) + Inputs(HoldKey(chord))
    {
      hide KeysDown, ButtonsDown, Presses, Releases, Held;
      ghost var before := queue.log;
      var held := queue.ChordDown(chord);
      if held.None? {
        ghost var pressed :| queue.log == before + Presses(pressed) + Releases(pressed);
        ChordLeavesNothing(before, pressed);
        return false;
      }
      heldKeys := held.value;
      ChordLeavesNothing(before, held.value);
      queue.Release(held.value);
      heldKeys := [];
      ok := *;
    }

    method Do(job: Job) returns (ok: bool)
      requires Between()
      modifies this, queue
      ensures Booked() && (ok ==> heldKeys == [])
      ensures ok ==> queue.log == old(queue.log) + Inputs(job) && heldButtons == StillHeld(job, old(heldButtons))
    {
      hide Chorded, Typed, Clicks, KeysDown, ButtonsDown, Presses, Releases;
      ok := *;   // the front window, the coordinate or the move before any press
      if !ok {
        return false;
      }
      match job
      case Click(mods, b, count) => ok := DoClick(mods, b, count);
      case Drag => ok := DoDrag();
      case LeftDown => ok := DoLeft(true);
      case LeftUp => ok := DoLeft(false);
      case Type(text, layout) =>
        if |text| > MAX_TYPE {
          return false;
        }
        ok := queue.TypeText(text, layout);
        if ok {
          ok := *;
        }
      case Paste => ok := DoKeys(PASTE, 1);
      case Keys(chord, repeat) => ok := DoKeys(chord, if repeat < 1 then 1 else repeat);
      case HoldKey(chord) => ok := DoHold(chord);
      case NoInput => ok := *;
    }

    /** One job: whatever is refused along the way, afterwards no key is down
        and a button only if the desk holds it. One that succeeds has put exactly
        its inputs in the queue, and they show what it asked for; after one that
        failed nothing at all is down. */
    method RunJob(job: Job) returns (ok: bool)
      requires Between()
      modifies this, queue
      ensures Between() && KeysDown(queue.log) == {}
      ensures ok ==> queue.log == old(queue.log) + Inputs(job) && heldButtons == StillHeld(job, old(heldButtons))
      ensures ok ==> Shows(job, old(queue.log), queue.log[|old(queue.log)|..])
      ensures !ok ==> NothingDown(queue.log) && heldButtons == []
    {
      hide Inputs, Shows;
      InputsShow(job, queue.log);
      assert (queue.log + Inputs(job))[|queue.log|..] == Inputs(job);
      ok := Do(job);
      if !ok {
        ReleaseAll();
      }
    }

    /** Any run of jobs. */
    method Serve(jobs: seq<Job>)
      requires Between()
      modifies this, queue
      ensures Between() && KeysDown(queue.log) == {}
    {
      for i := 0 to |jobs|
        invariant Between() && KeysDown(queue.log) == {}
      {
        var ok := RunJob(jobs[i]);
        assert !ok ==> NothingDown(queue.log);
      }
    }
  }
}
