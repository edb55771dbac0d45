/** One tick, in terms of the automations listed: who may fire, who must, and who is
    left alone. */
module SchedulerTicks {
  import opened Wrappers
  import opened Scheduler
  import opened SchedulerRuns

  // A firing of this schedule, at this minute.
  ghost predicate FiringOf(f: Firing, sc: Schedule, now: int) {
    sc.enabled && sc.id == f.id && sc.hash == f.hash && sc.rule == Some(f.rule) && f.at == now
  }

  ghost predicate FiredFor(f: Firing, scs: seq<Schedule>, now: int, stamps: string -> bool) {
    stamps(f.id) && exists k :: 0 <= k < |scs| && FiringOf(f, scs[k], now)
  }

  lemma {:induction false} TurnsFireTheirs(listed: map<string, int>, s: State, scs: seq<Schedule>, now: int, stamps: string -> bool)
    ensures var after := Turns(listed, s, scs, now, stamps);
            && s.fired <= after.fired
            && forall k :: |s.fired| <= k < |after.fired| ==> FiredFor(after.fired[k], scs, now, stamps)
  {
    if scs != [] {
      hide WhenDue;
      var n := |scs| - 1;
      var before, after := Turns(listed, s, scs[..n], now, stamps), Turns(listed, s, scs, now, stamps);
      TurnsFireTheirs(listed, s, scs[..n], now, stamps);
      forall k | |s.fired| <= k < |after.fired|
        ensures FiredFor(after.fired[k], scs, now, stamps)
      {
        if k < |before.fired| {
          var j :| 0 <= j < n && FiringOf(before.fired[k], scs[..n][j], now);
          assert FiringOf(after.fired[k], scs[j], now);
        } else {
          assert FiringOf(after.fired[k], scs[n], now);
        }
      }
    }
  }

  /** Whatever a tick fires is an enabled schedule of an automation that is switched
      on, under its own id, hash and rule, and stamped. A tick whose list fails
      changes nothing. */
  lemma OnlyListedOnesFire(s: State, tick: Tick)
    ensures tick.items.None? ==> AfterTick(s, tick) == s
    ensures tick.items.Some? ==>
              && s.fired <= AfterTick(s, tick).fired
              && forall k :: |s.fired| <= k < |AfterTick(s, tick).fired| ==>
                   && tick.stamps(AfterTick(s, tick).fired[k].id)
                   && exists sc :: Lists(tick.items.value, sc) && FiringOf(AfterTick(s, tick).fired[k], sc, tick.now)
  {
    hide Turns, Lists;
    if tick.items.Some? {
      var items, after := tick.items.value, AfterTick(s, tick);
      var scs := Active(items);
      TurnsFireTheirs(s.last, s, scs, tick.now, tick.stamps);
      forall k | |s.fired| <= k < |after.fired|
        ensures exists sc :: Lists(items, sc) && FiringOf(after.fired[k], sc, tick.now)
      {
        assert FiredFor(after.fired[k], scs, tick.now, tick.stamps);
        var j :| 0 <= j < |scs| && FiringOf(after.fired[k], scs[j], tick.now);
        ActiveIsListed(items, scs[j]);
      }
    }
  }

  /** A schedule of an automation that is switched on fires exactly once when it is
      enabled, has a rule, is due and can be stamped, for the slot that is due, which
      becomes its last fire; otherwise it is left as it was. */
  lemma DueOnesFireOnce(s: State, tick: Tick, sc: Schedule)
    requires GoodTick(tick) && tick.items.Some? && Lists(tick.items.value, sc)
    ensures var after := AfterTick(s, tick);
            var due := if sc.enabled && sc.rule.Some? && tick.stamps(sc.id)
                       then WhenDue(sc.rule.value, sc.hash, LastOf(s.last, sc.id), tick.now) else None;
            match due
            case Some(d) =>
              && FiredOf(after.fired, sc.id) ==
                 FiredOf(s.fired, sc.id) + [Firing(sc.id, sc.hash, sc.rule.value, d.slot, d.trigger, tick.now)]
              && LastOf(after.last, sc.id) == Some(d.slot)
            case None =>
              FiredOf(after.fired, sc.id) == FiredOf(s.fired, sc.id) && LastOf(after.last, sc.id) == LastOf(s.last, sc.id)
  {
    hide Turns, WhenDue, FiredOf, OwnIds, Lists, DistinctIds;
    var scs := Active(tick.items.value);
    ActiveIsDistinct(tick.items.value);
    ActiveIsListed(tick.items.value, sc);
    var i :| 0 <= i < |scs| && scs[i] == sc;
    EachScheduleIsItsOwnClock(s.last, s, scs, i, tick.now, tick.stamps);
    assert FiredOf(s.fired, sc.id) + [] == FiredOf(s.fired, sc.id);
  }

  /** A schedule that no automation switched on has, one found only under automations
      switched off among them, keeps its last fire and its firings. */
  lemma OthersAreLeftAlone(s: State, tick: Tick, id: string)
    requires tick.items.Some? ==> forall sc :: Lists(tick.items.value, sc) ==> sc.id != id
    ensures var after := AfterTick(s, tick);
            FiredOf(after.fired, id) == FiredOf(s.fired, id) && LastOf(after.last, id) == LastOf(s.last, id)
  {
    hide Turns, FiredOf, Lists;
    if tick.items.Some? {
      var scs := Active(tick.items.value);
      forall i | 0 <= i < |scs|
        ensures scs[i].id != id
      {
        ActiveIsListed(tick.items.value, scs[i]);
      }
      TurnsLeaveOthers(s.last, s, scs, tick.now, tick.stamps, id);
    }
  }

  /** So over a run, an automation that is switched off all along fires nothing. */
  lemma {:induction false} SwitchedOffFiresNothing(s: State, ticks: seq<Tick>, id: string)
    requires forall k, sc :: 0 <= k < |ticks| && ticks[k].items.Some? && Lists(ticks[k].items.value, sc) ==> sc.id != id
    ensures var after := AfterRun(s, ticks);
            FiredOf(after.fired, id) == FiredOf(s.fired, id) && LastOf(after.last, id) == LastOf(s.last, id)
  {
    if ticks != [] {
      hide AfterTick, FiredOf, Lists;
      var front := ticks[..|ticks| - 1];
      assert forall k :: 0 <= k < |front| ==> front[k] == ticks[k];
      SwitchedOffFiresNothing(s, front, id);
      OthersAreLeftAlone(AfterRun(s, front), ticks[|ticks| - 1], id);
    }
  }
}
