/** The automations scheduler: when a schedule is due, and the one-minute tick
    that stamps and fires it (internal/automate/engine.go). Times are whole
    minutes; a schedule's zone is part of its Cron. */
module Scheduler {
  import opened Wrappers

  /** A parsed cron rule: the minutes it matches, and how far ahead of a
      minute it looks for the next one (five years in the source). */
  datatype Cron = Cron(matches: int -> bool, horizon: nat)

  datatype Trigger = OnSchedule | CatchUp

  datatype Due = Due(slot: int, trigger: Trigger)

  // A cron text that does not parse leaves the schedule without a rule.
  datatype Schedule = Schedule(id: string, hash: nat, enabled: bool, rule: Option<Cron>)

  datatype Automation = Automation(enabled: bool, schedules: seq<Schedule>)

  const CAP: nat := 100_000
  const MAX_JITTER: nat := 30

  function FirstIn(c: Cron, lo: int, hi: int): (r: Option<int>)
    ensures r.Some? ==> lo <= r.value < hi && c.matches(r.value)
    ensures r.Some? ==> forall m :: lo <= m < r.value ==> !c.matches(m)
    ensures r.None? ==> forall m :: lo <= m < hi ==> !c.matches(m)
    decreases hi - lo
  {
    if hi <= lo then None
    else if c.matches(lo) then Some(lo)
    else FirstIn(c, lo + 1, hi)
  }

  // The first matching minute strictly after t, within the horizon.
  function Next(c: Cron, t: int): Option<int> {
    FirstIn(c, t + 1, t + c.horizon)
  }

  // The gap between the next two fires, zero when there are not two.
  function Interval(c: Cron, t: int): nat {
    match Next(c, t)
    case None => 0
    case Some(a) =>
      match Next(c, a)
      case None => 0
      case Some(b) => b - a
  }

  function Jitter(hash: nat, interval: nat): (j: nat)
    ensures j < MAX_JITTER
    ensures j != 0 ==> 2 * j < interval
  {
    var limit := if interval / 2 > MAX_JITTER then MAX_JITTER else interval / 2;
    if limit < 1 then 0 else hash % limit
  }

  function JitterAt(c: Cron, hash: nat, now: int): nat {
    Jitter(hash, Interval(c, now))
  }

  function NextFire(c: Cron, hash: nat, now: int): Option<int> {
    var jitter := JitterAt(c, hash, now);
    match Next(c, now - jitter)
    case None => None
    case Some(s) => Some(s + jitter)
  }

  // At most `fuel` steps along the matches after `from`, up to `bound`: the
  // last match reached.
  function Walk(c: Cron, from: int, bound: int, fuel: nat): (r: Option<int>)
    ensures r.Some? ==> from < r.value <= bound && c.matches(r.value)
    decreases fuel
  {
    match Next(c, from)
    case None => None
    case Some(n) =>
      if n > bound || fuel == 0 then None
      else
        var rest := Walk(c, n, bound, fuel - 1);
        if rest.Some? then rest else Some(n)
  }

  // Whether the schedule fires at `now`, for which slot, and why.
  function WhenDue(c: Cron, hash: nat, last: Option<int>, now: int): Option<Due> {
    var candidate := now - JitterAt(c, hash, now);
    if c.matches(candidate) && (last.None? || candidate > last.value) then Some(Due(candidate, OnSchedule))
    else if last.None? then None
    else
      match Walk(c, last.value, candidate, CAP)
      case None => None
      case Some(m) => Some(Due(m, CatchUp))
  }

  /** The decision as the code runs it: the catch-up loop with its cap. */
  method FindDue(c: Cron, hash: nat, last: Option<int>, now: int) returns (due: Option<Due>)
    ensures due == WhenDue(c, hash, last, now)
  {
    hide Next;
    var jitter := JitterAt(c, hash, now);
    var candidate := now - jitter;
    if c.matches(candidate) && (last.None? || candidate > last.value) {
      return Some(Due(candidate, OnSchedule));
    }
    if last.None? {
      return None;
    }
    var missed: Option<int> := None;
    var next := Next(c, last.value);
    var i := 0;
    while next.Some? && i < CAP && next.value + jitter <= now
      invariant 0 <= i <= CAP
      invariant next == Next(c, if missed.Some? then missed.value else last.value)
      invariant var rest := Walk(c, if missed.Some? then missed.value else last.value, candidate, CAP - i);
                Walk(c, last.value, candidate, CAP) == if rest.Some? then rest else missed
      decreases CAP - i
    {
      missed := next;
      next := Next(c, next.value);
      i := i + 1;
    }
    due := if missed.None? then None else Some(Due(missed.value, CatchUp));
  }

  // ---- The engine ---------------------------------------------------------------

  // One invocation handed to the runner.
  datatype Firing = Firing(id: string, hash: nat, rule: Cron, slot: int, trigger: Trigger, at: int)

  // The last fire of each schedule, and everything handed to the runner so far.
  datatype State = State(last: map<string, int>, fired: seq<Firing>)

  function LastOf(last: map<string, int>, id: string): Option<int> {
    if id in last then Some(last[id]) else None
  }

  // One schedule's turn: decided on the list read at the start of the tick;
  // a stamp the store refuses stops the turn before the runner.
  function Turn(listed: map<string, int>, s: State, sc: Schedule, now: int, stamps: string -> bool): State {
    if !sc.enabled || sc.rule.None? then s
    else
      match WhenDue(sc.rule.value, sc.hash, LastOf(listed, sc.id), now)
      case None => s
      case Some(due) =>
        if !stamps(sc.id) then s
        else State(s.last[sc.id := due.slot],
                   s.fired + [Firing(sc.id, sc.hash, sc.rule.value, due.slot, due.trigger, now)])
  }

  function Turns(listed: map<string, int>, s: State, scs: seq<Schedule>, now: int, stamps: string -> bool): State {
    if scs == [] then s
    else
      var n := |scs| - 1;
      Turn(listed, Turns(listed, s, scs[..n], now, stamps), scs[n], now, stamps)
  }

  function Active(items: seq<Automation>): seq<Schedule> {
    if items == [] then []
    else
      var n := |items| - 1;
      Active(items[..n]) + if items[n].enabled then items[n].schedules else []
  }

  /** One tick's circumstances: the automations listed (none when the list
      fails), the clock, and which stamps the store accepts. */
  datatype Tick = Tick(items: Option<seq<Automation>>, now: int, stamps: string -> bool)

  function AfterTick(s: State, tick: Tick): State {
    match tick.items
    case None => s
    case Some(items) => Turns(s.last, s, Active(items), tick.now, tick.stamps)
  }

  class Engine {
    var last: map<string, int>
    var fired: seq<Firing>

    function Now(): State
      reads this
    {
      State(last, fired)
    }

    constructor ()
      ensures Now() == State(map[], [])
    {
      last, fired := map[], [];
    }

    // One automation's schedules, after the ones already gone through.
    method RunSchedules(schedules: seq<Schedule>, listed: map<string, int>, tick: Tick,
                        ghost start: State, ghost before: seq<Schedule>)
      requires Now() == Turns(listed, start, before, tick.now, tick.stamps)
      modifies this
      ensures Now() == Turns(listed, start, before + schedules, tick.now, tick.stamps)
    {
      hide WhenDue;
      assert before + schedules[..0] == before;
      var k := 0;
      while k < |schedules|
        invariant 0 <= k <= |schedules|
        invariant Now() == Turns(listed, start, before + schedules[..k], tick.now, tick.stamps)
      {
        assert (before + schedules[..k + 1])[..|before| + k] == before + schedules[..k];
        var sc := schedules[k];
        if sc.enabled && sc.rule.Some? {
          var due := FindDue(sc.rule.value, sc.hash, LastOf(listed, sc.id), tick.now);
          if due.Some? && tick.stamps(sc.id) {
            last := last[sc.id := due.value.slot];
            fired := fired + [Firing(sc.id, sc.hash, sc.rule.value, due.value.slot, due.value.trigger, tick.now)];
          }
        }
        k := k + 1;
      }
      assert schedules[..|schedules|] == schedules;
    }

    method RunTick(tick: Tick)
      modifies this
      ensures Now() == AfterTick(old(Now()), tick)
    {
      hide Turn;
      if tick.items.None? {
        return;
      }
      var items := tick.items.value;
      var listed := last;
      var i := 0;
      while i < |items|
        invariant 0 <= i <= |items|
        invariant Now() == Turns(listed, old(Now()), Active(items[..i]), tick.now, tick.stamps)
      {
        assert items[..i + 1][..i] == items[..i];
        ghost var before := Active(items[..i]);
        if items[i].enabled {
          RunSchedules(items[i].schedules, listed, tick, old(Now()), before);
        } else {
          assert before + [] == before;
        }
        i := i + 1;
      }
      assert items[..|items|] == items;
    }
  }
}
