/** The scheduler over whole runs of ticks, with a clock that may step back and
    a store that may refuse stamps. */
module SchedulerRuns {
  import opened Wrappers
  import opened Scheduler
  import opened SchedulerLaws

  function AfterRun(s: State, ticks: seq<Tick>): State {
    if ticks == [] then s
    else
      var n := |ticks| - 1;
      AfterTick(AfterRun(s, ticks[..n]), ticks[n])
  }

  // Schedule ids are the store's primary key.
  ghost predicate DistinctIds(scs: seq<Schedule>) {
    forall i, j :: 0 <= i < j < |scs| ==> scs[i].id != scs[j].id
  }

  ghost predicate OwnIds(items: seq<Automation>) {
    forall i, p, j, q |
      && 0 <= i < |items| && 0 <= p < |items[i].schedules|
      && 0 <= j < |items| && 0 <= q < |items[j].schedules| && (i != j || p != q) ::
      items[i].schedules[p].id != items[j].schedules[q].id
  }

  ghost predicate GoodTick(tick: Tick) {
    tick.items.Some? ==> OwnIds(tick.items.value)
  }

  // A schedule of an automation that is switched on.
  ghost predicate Lists(items: seq<Automation>, sc: Schedule) {
    exists i :: 0 <= i < |items| && items[i].enabled && sc in items[i].schedules
  }

  lemma ListsFirst(items: seq<Automation>, sc: Schedule)
    requires items != []
    ensures var n := |items| - 1;
            Lists(items, sc) <==> Lists(items[..n], sc) || (items[n].enabled && sc in items[n].schedules)
  {
    var n := |items| - 1;
    if Lists(items[..n], sc) {
      var i :| 0 <= i < n && items[..n][i].enabled && sc in items[..n][i].schedules;
      assert items[i].enabled && sc in items[i].schedules;
    }
    if Lists(items, sc) {
      var i :| 0 <= i < |items| && items[i].enabled && sc in items[i].schedules;
      assert i < n ==> items[..n][i] == items[i];
    }
  }

  // What a tick goes through are the schedules of the automations switched on.
  lemma {:induction false} ActiveIsListed(items: seq<Automation>, sc: Schedule)
    ensures sc in Active(items) <==> Lists(items, sc)
  {
    if items != [] {
      ActiveIsListed(items[..|items| - 1], sc);
      ListsFirst(items, sc);
    }
  }

  lemma {:induction false} ActiveIsDistinct(items: seq<Automation>)
    requires OwnIds(items)
    ensures DistinctIds(Active(items))
  {
    if items != [] {
      var n := |items| - 1;
      var front, last := Active(items[..n]), items[n].schedules;
      assert forall i :: 0 <= i < n ==> items[..n][i] == items[i];
      ActiveIsDistinct(items[..n]);
      forall k, q | 0 <= k < |front| && 0 <= q < |last|
        ensures front[k].id != last[q].id
      {
        ActiveIsListed(items[..n], front[k]);
        var i :| 0 <= i < n && items[..n][i].enabled && front[k] in items[..n][i].schedules;
        var p :| 0 <= p < |items[i].schedules| && items[i].schedules[p] == front[k];
      }
      assert forall p, q :: 0 <= p < q < |last| ==> items[n].schedules[p].id != items[n].schedules[q].id;
    }
  }

  // ---- Safety -----------------------------------------------------------------------

  // A firing honours a slot of its rule, never before its jittered time, and is
  // a catch-up exactly when it is late.
  ghost predicate Honest(f: Firing) {
    && f.rule.matches(f.slot)
    && f.slot + JitterAt(f.rule, f.hash, f.at) <= f.at
    && (f.trigger == OnSchedule <==> f.slot + JitterAt(f.rule, f.hash, f.at) == f.at)
  }

  // Every firing is honest and stamped, and a schedule's slots only go up.
  ghost predicate Safe(s: State) {
    && (forall i :: 0 <= i < |s.fired| ==>
          Honest(s.fired[i]) && s.fired[i].id in s.last && s.fired[i].slot <= s.last[s.fired[i].id])
    && (forall i, j :: 0 <= i < j < |s.fired| && s.fired[i].id == s.fired[j].id ==> s.fired[i].slot < s.fired[j].slot)
  }

  // The last fires only move forward, and the runner's history only grows.
  ghost predicate Onward(a: State, b: State) {
    && (forall id :: id in a.last ==> id in b.last && a.last[id] <= b.last[id])
    && a.fired <= b.fired
  }

  lemma OnwardThrough(a: State, b: State, c: State)
    requires Onward(a, b) && Onward(b, c)
    ensures Onward(a, c)
  {
  }

  lemma FirstOnes(scs: seq<Schedule>)
    requires scs != [] && DistinctIds(scs)
    ensures DistinctIds(scs[..|scs| - 1])
    ensures var before := scs[..|scs| - 1]; forall i :: 0 <= i < |before| ==> before[i].id != scs[|scs| - 1].id
  {
  }

  lemma TurnIsSafe(listed: map<string, int>, s: State, sc: Schedule, now: int, stamps: string -> bool)
    requires Safe(s) && LastOf(listed, sc.id) == LastOf(s.last, sc.id)
    ensures Safe(Turn(listed, s, sc, now, stamps)) && Onward(s, Turn(listed, s, sc, now, stamps))
  {
    hide Next, Interval, Walk, Jitter;
    if sc.rule.Some? && WhenDue(sc.rule.value, sc.hash, LastOf(listed, sc.id), now).Some? {
      DueIsNeverEarly(sc.rule.value, sc.hash, LastOf(listed, sc.id), now);
    }
    hide WhenDue, JitterAt;
  }

  // A turn reads and moves only its own schedule's last fire.
  lemma TurnIsOwn(listed: map<string, int>, s: State, sc: Schedule, now: int, stamps: string -> bool, id: string)
    requires id != sc.id
    ensures LastOf(Turn(listed, s, sc, now, stamps).last, id) == LastOf(s.last, id)
    ensures FiredOf(Turn(listed, s, sc, now, stamps).fired, id) == FiredOf(s.fired, id)
  {
    hide WhenDue;
    var next := Turn(listed, s, sc, now, stamps);
    if next != s {
      assert next.fired[..|s.fired|] == s.fired;
    }
  }

  lemma {:induction false} TurnsAreSafe(listed: map<string, int>, s: State, scs: seq<Schedule>, now: int, stamps: string -> bool)
    requires Safe(s) && DistinctIds(scs)
    requires forall i :: 0 <= i < |scs| ==> LastOf(listed, scs[i].id) == LastOf(s.last, scs[i].id)
    ensures Safe(Turns(listed, s, scs, now, stamps)) && Onward(s, Turns(listed, s, scs, now, stamps))
  {
    if scs != [] {
      hide Turn, Safe, Onward, DistinctIds, FiredOf;
      var n := |scs| - 1;
      var before := Turns(listed, s, scs[..n], now, stamps);
      FirstOnes(scs);
      TurnsAreSafe(listed, s, scs[..n], now, stamps);
      TurnsLeaveOthers(listed, s, scs[..n], now, stamps, scs[n].id);
      TurnIsSafe(listed, before, scs[n], now, stamps);
      OnwardThrough(s, before, Turn(listed, before, scs[n], now, stamps));
    }
  }

  lemma {:induction false} TurnsLeaveOthers(listed: map<string, int>, s: State, scs: seq<Schedule>, now: int,
                                            stamps: string -> bool, id: string)
    requires forall i :: 0 <= i < |scs| ==> scs[i].id != id
    ensures var after := Turns(listed, s, scs, now, stamps);
            LastOf(after.last, id) == LastOf(s.last, id) && FiredOf(after.fired, id) == FiredOf(s.fired, id)
  {
    if scs != [] {
      hide Turn;
      var n := |scs| - 1;
      TurnsLeaveOthers(listed, s, scs[..n], now, stamps, id);
      TurnIsOwn(listed, Turns(listed, s, scs[..n], now, stamps), scs[n], now, stamps, id);
    }
  }

  /** Over any run of ticks, whatever the clock does and whichever stamps and
      lists fail: every firing is of a matching slot, none is early, a
      schedule's slots strictly increase (so no slot reaches the runner twice),
      and no last fire ever moves back. */
  lemma {:induction false} EveryRunIsSafe(s: State, ticks: seq<Tick>)
    requires Safe(s) && forall i :: 0 <= i < |ticks| ==> GoodTick(ticks[i])
    ensures Safe(AfterRun(s, ticks)) && Onward(s, AfterRun(s, ticks))
  {
    if ticks != [] {
      hide Turns, Active, Safe, OwnIds;
      var n := |ticks| - 1;
      var before := AfterRun(s, ticks[..n]);
      EveryRunIsSafe(s, ticks[..n]);
      if ticks[n].items.Some? {
        assert GoodTick(ticks[n]);
        ActiveIsDistinct(ticks[n].items.value);
        TurnsAreSafe(before.last, before, Active(ticks[n].items.value), ticks[n].now, ticks[n].stamps);
      }
    }
  }

  // ---- One schedule's own clock ----------------------------------------------------------

  function FiredOf(fired: seq<Firing>, id: string): seq<Firing> {
    if fired == [] then []
    else
      var n := |fired| - 1;
      FiredOf(fired[..n], id) + if fired[n].id == id then [fired[n]] else []
  }

  // What one turn does to the schedule's own last fire and firings.
  function OwnTurn(last: Option<int>, sc: Schedule, now: int, stamped: bool): (Option<int>, seq<Firing>) {
    if !sc.enabled || sc.rule.None? || !stamped then (last, [])
    else
      match WhenDue(sc.rule.value, sc.hash, last, now)
      case None => (last, [])
      case Some(due) => (Some(due.slot), [Firing(sc.id, sc.hash, sc.rule.value, due.slot, due.trigger, now)])
  }

  /** Each schedule is its own clock: a tick over any list of schedules does to
      one of them what its own turn alone would do. */
  lemma {:induction false} EachScheduleIsItsOwnClock(listed: map<string, int>, s: State, scs: seq<Schedule>, i: nat,
                                                     now: int, stamps: string -> bool)
    requires DistinctIds(scs) && i < |scs| && LastOf(listed, scs[i].id) == LastOf(s.last, scs[i].id)
    ensures var after := Turns(listed, s, scs, now, stamps);
            var own := OwnTurn(LastOf(s.last, scs[i].id), scs[i], now, stamps(scs[i].id));
            && LastOf(after.last, scs[i].id) == own.0
            && FiredOf(after.fired, scs[i].id) == FiredOf(s.fired, scs[i].id) + own.1
  {
    hide Turn, OwnTurn, DistinctIds, FiredOf;
    var n := |scs| - 1;
    var before := Turns(listed, s, scs[..n], now, stamps);
    FirstOnes(scs);
    if i < n {
      EachScheduleIsItsOwnClock(listed, s, scs[..n], i, now, stamps);
      TurnIsOwn(listed, before, scs[n], now, stamps, scs[i].id);
    } else {
      TurnsLeaveOthers(listed, s, scs[..n], now, stamps, scs[n].id);
      OwnTurnIsTurn(listed, before, scs[n], now, stamps);
    }
  }

  lemma OwnTurnIsTurn(listed: map<string, int>, s: State, sc: Schedule, now: int, stamps: string -> bool)
    requires LastOf(listed, sc.id) == LastOf(s.last, sc.id)
    ensures var after := Turn(listed, s, sc, now, stamps);
            var own := OwnTurn(LastOf(s.last, sc.id), sc, now, stamps(sc.id));
            && LastOf(after.last, sc.id) == own.0
            && FiredOf(after.fired, sc.id) == FiredOf(s.fired, sc.id) + own.1
  {
    hide WhenDue;
    var after := Turn(listed, s, sc, now, stamps);
    if after.fired != s.fired {
      assert after.fired[..|s.fired|] == s.fired;
    } else {
      assert FiredOf(s.fired, sc.id) + [] == FiredOf(s.fired, sc.id);
    }
  }

  // ---- The promise, tick by tick -----------------------------------------------------------

  // One tick a minute from now on, each listing the schedule and able to stamp it.
  ghost predicate MinuteTicks(ticks: seq<Tick>, sc: Schedule, now: int) {
    forall k :: 0 <= k < |ticks| ==>
      && ticks[k].now == now + 1 + k
      && GoodTick(ticks[k]) && ticks[k].items.Some? && Lists(ticks[k].items.value, sc)
      && ticks[k].stamps(sc.id)
  }

  // On the way to the promised minute, while the jitter is steady: nothing fires
  // before it and the promised slot fires then.
  lemma {:induction false} PromiseIsKeptByTheEngine(s: State, ticks: seq<Tick>, sc: Schedule, now: int)
    requires sc.enabled && sc.rule.Some? && NextFire(sc.rule.value, sc.hash, now).Some?
    requires Drained(sc.rule.value, LastOf(s.last, sc.id), now - JitterAt(sc.rule.value, sc.hash, now))
    requires JitterAt(sc.rule.value, sc.hash, NextFire(sc.rule.value, sc.hash, now).value) == JitterAt(sc.rule.value, sc.hash, now)
    requires MinuteTicks(ticks, sc, now) && now + |ticks| <= NextFire(sc.rule.value, sc.hash, now).value
    ensures var t := NextFire(sc.rule.value, sc.hash, now).value;
            var after := AfterRun(s, ticks);
            if now + |ticks| < t then
              LastOf(after.last, sc.id) == LastOf(s.last, sc.id) && FiredOf(after.fired, sc.id) == FiredOf(s.fired, sc.id)
            else
              && LastOf(after.last, sc.id) == Some(Promised(sc, now).slot)
              && FiredOf(after.fired, sc.id) == FiredOf(s.fired, sc.id) + [Promised(sc, now)]
  {
    hide NextFire, JitterAt, WhenDue, Turns, FiredOf, Drained, DistinctIds, Active, OwnIds, Lists;
    NextFireIsLater(sc.rule.value, sc.hash, now);
    JitterChangesOnce(sc.rule.value, sc.hash, now);
    if ticks != [] {
      var n := |ticks| - 1;
      var before := AfterRun(s, ticks[..n]);
      PromiseIsKeptByTheEngine(s, ticks[..n], sc, now);
      assert ticks[n].now == now + 1 + n && GoodTick(ticks[n]);
      var scs := Active(ticks[n].items.value);
      ActiveIsDistinct(ticks[n].items.value);
      ActiveIsListed(ticks[n].items.value, sc);
      var i :| 0 <= i < |scs| && scs[i] == sc;
      EachScheduleIsItsOwnClock(before.last, before, scs, i, ticks[n].now, ticks[n].stamps);
      assert JitterAt(sc.rule.value, sc.hash, ticks[n].now) == JitterAt(sc.rule.value, sc.hash, now);
      PromiseIsKept(sc.rule.value, sc.hash, LastOf(s.last, sc.id), now, ticks[n].now);
      assert FiredOf(before.fired, sc.id) + [] == FiredOf(before.fired, sc.id);
    }
  }

  // The firing the list promises at `now`.
  function Promised(sc: Schedule, now: int): Firing
    requires sc.rule.Some? && NextFire(sc.rule.value, sc.hash, now).Some?
  {
    var t := NextFire(sc.rule.value, sc.hash, now).value;
    Firing(sc.id, sc.hash, sc.rule.value, t - JitterAt(sc.rule.value, sc.hash, now), OnSchedule, t)
  }

  lemma {:induction false} FiredOfIsFired(fired: seq<Firing>, id: string, f: Firing)
    requires f in FiredOf(fired, id)
    ensures f in fired
  {
    var n := |fired| - 1;
    if fired[n] != f {
      FiredOfIsFired(fired[..n], id, f);
    }
  }

  /** The list promises a time the engine keeps exactly when the jitter is, at that
      minute, what it was when the list was shown: from a drained state, with one
      tick a minute up to it, the schedule's firings are the promised one and no
      other if and only if it is. */
  lemma PromiseIsKeptExactly(s: State, ticks: seq<Tick>, sc: Schedule, now: int)
    requires Safe(s) && sc.enabled && sc.rule.Some? && NextFire(sc.rule.value, sc.hash, now).Some?
    requires Drained(sc.rule.value, LastOf(s.last, sc.id), now - JitterAt(sc.rule.value, sc.hash, now))
    requires MinuteTicks(ticks, sc, now) && now + |ticks| == NextFire(sc.rule.value, sc.hash, now).value
    ensures FiredOf(AfterRun(s, ticks).fired, sc.id) == FiredOf(s.fired, sc.id) + [Promised(sc, now)] <==>
            JitterAt(sc.rule.value, sc.hash, NextFire(sc.rule.value, sc.hash, now).value) == JitterAt(sc.rule.value, sc.hash, now)
  {
    hide NextFire, JitterAt, AfterRun, FiredOf, Drained;
    var t := NextFire(sc.rule.value, sc.hash, now).value;
    if JitterAt(sc.rule.value, sc.hash, t) == JitterAt(sc.rule.value, sc.hash, now) {
      PromiseIsKeptByTheEngine(s, ticks, sc, now);
    }
    var mine := FiredOf(AfterRun(s, ticks).fired, sc.id);
    if mine == FiredOf(s.fired, sc.id) + [Promised(sc, now)] {
      assert mine[|mine| - 1] == Promised(sc, now);
      FiredOfIsFired(AfterRun(s, ticks).fired, sc.id, Promised(sc, now));
      EveryRunIsSafe(s, ticks);
    }
  }

  /** It is broken for a real rule: whoever drained the twice-an-hour schedule at
      minute 4 is shown minute 61 and does not get it. */
  lemma TheEngineBreaksAPromise(s: State, ticks: seq<Tick>, id: string)
    requires Safe(s) && LastOf(s.last, id) == Some(4)
    requires MinuteTicks(ticks, Schedule(id, 3, true, Some(TwiceAnHour())), 5) && |ticks| == 56
    ensures NextFire(TwiceAnHour(), 3, 5) == Some(61)
    ensures var sc := Schedule(id, 3, true, Some(TwiceAnHour()));
            FiredOf(AfterRun(s, ticks).fired, id) !=
            FiredOf(s.fired, id) + [Firing(id, 3, TwiceAnHour(), 60, OnSchedule, 61)]
  {
    hide JitterAt, NextFire, AfterRun, FiredOf, MinuteTicks;
    UnevenRuleBreaksThePromise();
    PromiseIsKeptExactly(s, ticks, Schedule(id, 3, true, Some(TwiceAnHour())), 5);
  }

  lemma NextFireIsLater(c: Cron, hash: nat, now: int)
    requires NextFire(c, hash, now).Some?
    ensures NextFire(c, hash, now).value > now
  {
  }
}
