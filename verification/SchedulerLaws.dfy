/** What the scheduler promises: which slot is due, that no slot fires early or
    twice over any run, and that the list shows the time the engine keeps. */
module SchedulerLaws {
  import opened Wrappers
  import opened Scheduler

  // ---- Counting slots -----------------------------------------------------------

  // How many minutes in (lo, hi] match.
  function Count(c: Cron, lo: int, hi: int): nat
    decreases hi - lo
  {
    if hi <= lo then 0 else Count(c, lo, hi - 1) + if c.matches(hi) then 1 else 0
  }

  ghost predicate Quiet(c: Cron, lo: int, hi: int) {
    forall m :: lo < m <= hi ==> !c.matches(m)
  }

  lemma {:induction false} CountSplit(c: Cron, lo: int, mid: int, hi: int)
    requires lo <= mid <= hi
    ensures Count(c, lo, hi) == Count(c, lo, mid) + Count(c, mid, hi)
    decreases hi - mid
  {
    if mid < hi {
      CountSplit(c, lo, mid, hi - 1);
    }
  }

  lemma {:induction false} CountZero(c: Cron, lo: int, hi: int)
    ensures Count(c, lo, hi) == 0 <==> Quiet(c, lo, hi)
    decreases hi - lo
  {
    if lo < hi {
      CountZero(c, lo, hi - 1);
    }
  }

  // The next match is one step on the count.
  lemma CountNext(c: Cron, from: int, n: int)
    requires Next(c, from) == Some(n)
    ensures from < n && c.matches(n) && Quiet(c, from, n - 1) && Count(c, from, n) == 1
  {
    CountZero(c, from, n - 1);
  }

  // ---- The catch-up loop ----------------------------------------------------------

  ghost predicate HasLater(c: Cron, t: int, bound: int) {
    exists m :: t < m <= bound && c.matches(m)
  }

  // From `from` on, every wait for a slot up to `bound` is within the horizon.
  ghost predicate Covered(c: Cron, from: int, bound: int) {
    forall t :: from <= t && (t == from || c.matches(t)) && HasLater(c, t, bound) ==> Next(c, t).Some?
  }

  // The answer a catch-up owes: the latest match in (from, bound], if any.
  ghost predicate Latest(c: Cron, from: int, bound: int, r: Option<int>) {
    match r
    case None => Quiet(c, from, bound)
    case Some(m) => from < m <= bound && c.matches(m) && Quiet(c, m, bound)
  }

  lemma CoveredStep(c: Cron, from: int, n: int, bound: int)
    requires Next(c, from) == Some(n) && n <= bound
    ensures Covered(c, from, bound) <==> Covered(c, n, bound)
  {
    CountNext(c, from, n);
    forall t | from < t && c.matches(t)
      ensures n <= t
    {
    }
  }

  /** The catch-up loop finds the latest missed slot exactly when no wait is
      longer than the rule's horizon and no more slots were missed than the
      loop may step over. */
  lemma {:induction false} WalkFindsLatest(c: Cron, from: int, bound: int, fuel: nat)
    ensures Latest(c, from, bound, Walk(c, from, bound, fuel)) <==>
            Covered(c, from, bound) && Count(c, from, bound) <= fuel
    decreases fuel
  {
    CountZero(c, from, bound);
    match Next(c, from)
    case None =>
      if HasLater(c, from, bound) {
        assert !Covered(c, from, bound);
      }
    case Some(n) =>
      CountNext(c, from, n);
      if n <= bound {
        CountSplit(c, from, n, bound);
        CoveredStep(c, from, n, bound);
        if fuel > 0 {
          WalkFindsLatest(c, n, bound, fuel - 1);
        }
      }
  }

  /** Past the cap the loop stops at the capth missed slot. */
  lemma {:induction false} WalkStopsAtTheCap(c: Cron, from: int, bound: int, fuel: nat)
    requires Covered(c, from, bound) && 0 < fuel < Count(c, from, bound)
    ensures var r := Walk(c, from, bound, fuel); r.Some? && Count(c, from, r.value) == fuel
    decreases fuel
  {
    CountZero(c, from, bound);
    assert HasLater(c, from, bound);
    var n := Next(c, from).value;
    CountNext(c, from, n);
    CountSplit(c, from, n, bound);
    CoveredStep(c, from, n, bound);
    if fuel > 1 {
      WalkStopsAtTheCap(c, n, bound, fuel - 1);
      CountSplit(c, from, n, Walk(c, n, bound, fuel - 1).value);
    }
  }

  // ---- Due -------------------------------------------------------------------------

  /** With a last fire on record, what is due is the latest slot not yet fired
      whose jittered time has come, exactly when that slot is due right now or
      the catch-up can reach it. */
  lemma DueIsLatest(c: Cron, hash: nat, last: int, now: int)
    ensures var candidate := now - JitterAt(c, hash, now);
            var due := WhenDue(c, hash, Some(last), now);
            Latest(c, last, candidate, if due.Some? then Some(due.value.slot) else None) <==>
            (c.matches(candidate) && candidate > last)
            || (Covered(c, last, candidate) && Count(c, last, candidate) <= CAP)
  {
    WalkFindsLatest(c, last, now - JitterAt(c, hash, now), CAP);
  }

  /** A schedule that never fired does not catch up. */
  lemma NeverFiredWaits(c: Cron, hash: nat, now: int)
    ensures var candidate := now - JitterAt(c, hash, now);
            WhenDue(c, hash, None, now) == if c.matches(candidate) then Some(Due(candidate, OnSchedule)) else None
  {
  }

  // A slot is never honoured early, and it is on schedule exactly on time.
  lemma DueIsNeverEarly(c: Cron, hash: nat, last: Option<int>, now: int)
    requires WhenDue(c, hash, last, now).Some?
    ensures var due := WhenDue(c, hash, last, now).value;
            && c.matches(due.slot) && due.slot + JitterAt(c, hash, now) <= now
            && (due.trigger == OnSchedule <==> due.slot + JitterAt(c, hash, now) == now)
            && (last.Some? ==> due.slot > last.value)
  {
  }

  // Once the latest slot is stamped, the same minute fires nothing more.
  lemma NothingAfterLatest(c: Cron, hash: nat, last: int, now: int)
    requires WhenDue(c, hash, Some(last), now).Some?
    requires var slot := WhenDue(c, hash, Some(last), now).value.slot;
             Latest(c, last, now - JitterAt(c, hash, now), Some(slot))
    ensures WhenDue(c, hash, Some(WhenDue(c, hash, Some(last), now).value.slot), now).None?
  {
    hide Next, Interval, Jitter;
  }

  /** Stamping what was due shrinks the backlog: to nothing when the slot was on
      time or within the cap, so the same minute fires nothing more; by exactly
      the cap otherwise. */
  lemma StampDrains(c: Cron, hash: nat, last: int, now: int)
    requires WhenDue(c, hash, Some(last), now).Some?
    ensures var candidate, slot := now - JitterAt(c, hash, now), WhenDue(c, hash, Some(last), now).value.slot;
            var backlog := Count(c, last, candidate);
            var onTime := c.matches(candidate) && candidate > last;
            && Count(c, slot, candidate) < backlog
            && (onTime || (Covered(c, last, candidate) && backlog <= CAP) ==> WhenDue(c, hash, Some(slot), now).None?)
            && (!onTime && Covered(c, last, candidate) && backlog > CAP ==> Count(c, slot, candidate) == backlog - CAP)
  {
    hide Next, Interval, Jitter, Count, Covered;
    var candidate, slot := now - JitterAt(c, hash, now), WhenDue(c, hash, Some(last), now).value.slot;
    CountSplit(c, last, slot, candidate);
    CountZero(c, last, slot);
    DueIsLatest(c, hash, last, now);
    if Latest(c, last, candidate, Some(slot)) {
      NothingAfterLatest(c, hash, last, now);
    }
    if Covered(c, last, candidate) && Count(c, last, candidate) > CAP {
      WalkStopsAtTheCap(c, last, candidate, CAP);
    }
  }

  /** The jitter spreads over its whole range: every delay below half the interval and
      below half an hour is some schedule's. */
  lemma JitterReaches(interval: nat, delay: nat)
    requires delay < interval / 2 && delay < MAX_JITTER
    ensures Jitter(delay, interval) == delay
  {
  }

  // ---- The list's promise ------------------------------------------------------------

  // Minute t is the fire time of a slot, under this jitter.
  ghost predicate FireTime(c: Cron, jitter: nat, t: int) {
    c.matches(t - jitter)
  }

  /** The list shows the first fire time after now. */
  lemma NextFireIsFirst(c: Cron, hash: nat, now: int)
    ensures var jitter := JitterAt(c, hash, now);
            match NextFire(c, hash, now)
            case Some(t) => t > now && FireTime(c, jitter, t) && forall u :: now < u < t ==> !FireTime(c, jitter, u)
            case None => forall u :: now < u < now + c.horizon ==> !FireTime(c, jitter, u)
  {
  }

  // Nothing is waiting to be caught up.
  ghost predicate Drained(c: Cron, last: Option<int>, bound: int) {
    last.Some? ==> last.value <= bound && Quiet(c, last.value, bound)
  }

  /** The promise is kept: from a drained state, while the jitter stays what it
      was, nothing fires before the promised minute and its slot fires then. */
  lemma PromiseIsKept(c: Cron, hash: nat, last: Option<int>, now: int, u: int)
    requires NextFire(c, hash, now).Some? && now < u <= NextFire(c, hash, now).value
    requires Drained(c, last, now - JitterAt(c, hash, now)) && JitterAt(c, hash, u) == JitterAt(c, hash, now)
    ensures var t := NextFire(c, hash, now).value;
            WhenDue(c, hash, last, u) ==
            if u < t then None else Some(Due(t - JitterAt(c, hash, now), OnSchedule))
  {
    hide Interval, Jitter, NextFire;
    NextFireIsFirst(c, hash, now);
    var jitter := JitterAt(c, hash, now);
    assert FireTime(c, jitter, u) ==> u == NextFire(c, hash, now).value;
    if last.Some? && u < NextFire(c, hash, now).value {
      forall m | last.value < m <= u - jitter
        ensures !c.matches(m)
      {
        assert m > now - jitter ==> !FireTime(c, jitter, m + jitter);
      }
    }
  }

  // From now to then the interval never changes the jitter.
  ghost predicate SteadyJitter(c: Cron, hash: nat, from: int, to: int) {
    forall u :: from <= u <= to ==> JitterAt(c, hash, u) == JitterAt(c, hash, from)
  }

  // Until the next match, every minute waits for the same one.
  lemma SameWait(c: Cron, t: int, u: int, n: int)
    requires Next(c, t) == Some(n) && t <= u < n
    ensures Next(c, u) == Some(n) && Interval(c, u) == Interval(c, t)
  {
    CountNext(c, t, n);
    NextIs(c, u, n);
  }

  /** Between now and the promised minute the jitter changes at most once, and
      only at the next match: steady throughout is the same as unchanged when
      the minute comes. */
  lemma JitterChangesOnce(c: Cron, hash: nat, now: int)
    requires NextFire(c, hash, now).Some?
    ensures var t := NextFire(c, hash, now).value;
            JitterAt(c, hash, t) == JitterAt(c, hash, now) <==> SteadyJitter(c, hash, now, t)
  {
    hide Next, Jitter, Interval;
    var jitter := JitterAt(c, hash, now);
    var slot := Next(c, now - jitter).value;
    var t := slot + jitter;
    CountNext(c, now - jitter, slot);
    if JitterAt(c, hash, t) == jitter {
      forall u | now <= u <= t
        ensures JitterAt(c, hash, u) == jitter
      {
        SteadyOnTheWay(c, hash, now, slot, u);
      }
    }
  }

  lemma SteadyOnTheWay(c: Cron, hash: nat, now: int, slot: int, u: int)
    requires Next(c, now - JitterAt(c, hash, now)) == Some(slot) && now <= u <= slot + JitterAt(c, hash, now)
    requires JitterAt(c, hash, slot + JitterAt(c, hash, now)) == JitterAt(c, hash, now)
    ensures JitterAt(c, hash, u) == JitterAt(c, hash, now)
  {
    hide Next, Jitter;
    var jitter := JitterAt(c, hash, now);
    CountNext(c, now - jitter, slot);
    if now < slot {
      SameWait(c, now - jitter, now, slot);
    }
    if Next(c, now).Some? {
      var n := Next(c, now).value;
      CountNext(c, now, n);
      if u < n {
        SameWait(c, now, u, n);
      } else if jitter != 0 {
        SameWait(c, n, u, Next(c, n).value);
        SameWait(c, n, slot + jitter, Next(c, n).value);
      }
    }
  }

  /** When the interval changes on the way, the promised slot is still due at the
      promised minute exactly when the jitter is then what it was. */
  lemma PromiseNeedsTheJitter(c: Cron, hash: nat, last: Option<int>, now: int)
    requires NextFire(c, hash, now).Some? && Drained(c, last, now - JitterAt(c, hash, now))
    ensures var t := NextFire(c, hash, now).value;
            WhenDue(c, hash, last, t) == Some(Due(t - JitterAt(c, hash, now), OnSchedule)) <==>
            JitterAt(c, hash, t) == JitterAt(c, hash, now)
  {
    var t := NextFire(c, hash, now).value;
    if JitterAt(c, hash, t) == JitterAt(c, hash, now) {
      PromiseIsKept(c, hash, last, now, t);
    }
  }

  // Minutes 0 and 4 of every hour.
  function TwiceAnHour(): Cron {
    Cron(m => m % 60 == 0 || m % 60 == 4, 120)
  }

  lemma NextIs(c: Cron, t: int, n: int)
    requires t < n < t + c.horizon && c.matches(n) && Quiet(c, t, n - 1)
    ensures Next(c, t) == Some(n)
  {
  }

  /** A rule with uneven intervals breaks the promise: shown 61, the slot 60 is
      not due then. */
  lemma UnevenRuleBreaksThePromise()
    ensures NextFire(TwiceAnHour(), 3, 5) == Some(61)
    ensures JitterAt(TwiceAnHour(), 3, 5) == 1 && JitterAt(TwiceAnHour(), 3, 61) == 3
    ensures WhenDue(TwiceAnHour(), 3, Some(4), 61) == None
  {
    hide Next;
    var c := TwiceAnHour();
    NextIs(c, 5, 60);
    NextIs(c, 60, 64);
    NextIs(c, 4, 60);
    NextIs(c, 61, 64);
    NextIs(c, 64, 120);
    assert Interval(c, 5) == 4 && Interval(c, 61) == 56;
    assert JitterAt(c, 3, 5) == 1 && JitterAt(c, 3, 61) == 3;
    assert !c.matches(58);
  }
}
