/** The bounded ring of a tab's recorded events, and pollers that read it by
    sequence number (desktop-shell/src/btab.rs). */
module EventRing {
  const RING_CAP: nat := 256

  datatype Entry<T> = Entry(number: nat, event: T)

  datatype Reply<T> = Reply(events: seq<Entry<T>>, last: nat, dropped: nat)

  // Entry n of a log is its nth event, counting from one.
  function Numbered<T>(log: seq<T>, after: nat): (r: seq<Entry<T>>)
    requires after <= |log|
    ensures |r| == |log| - after
    ensures forall i :: 0 <= i < |r| ==> r[i] == Entry(after + i + 1, log[after + i])
  {
    seq(|log| - after, i requires 0 <= i < |log| - after => Entry(after + i + 1, log[after + i]))
  }

  function Above<T>(events: seq<Entry<T>>, since: nat): seq<Entry<T>> {
    if events == [] then []
    else
      var n := |events| - 1;
      Above(events[..n], since) + if events[n].number > since then [events[n]] else []
  }

  function Max(a: nat, b: nat): nat {
    if a < b then b else a
  }

  // A poll of the ring of a log: the entries after both what the poller has
  // seen and what was dropped.
  function Polled<T>(log: seq<T>, dropped: nat, since: nat): Reply<T>
    requires dropped <= |log|
  {
    Reply(if Max(since, dropped) <= |log| then Numbered(log, Max(since, dropped)) else [], |log|, dropped)
  }

  // How much of a log of this length the ring has let go.
  function Dropped(length: nat): nat {
    if length > RING_CAP then length - RING_CAP else 0
  }

  lemma {:induction false} AboveIsSuffix<T>(log: seq<T>, dropped: nat, n: nat, since: nat)
    requires dropped <= |log| && n <= |log| - dropped
    ensures Above(Numbered(log, dropped)[..n], since) ==
            var from := Max(since, dropped);
            if from <= dropped + n then Numbered(log, from)[..dropped + n - from] else []
  {
    var all := Numbered(log, dropped);
    if n > 0 {
      AboveIsSuffix(log, dropped, n - 1, since);
      assert all[..n][..n - 1] == all[..n - 1];
    }
  }

  class Ring<T(==)> {
    ghost var log: seq<T>
    var events: seq<Entry<T>>
    var number: nat
    var dropped: nat

    // The ring holds exactly the newest entries of everything ever recorded.
    ghost predicate Valid()
      reads this
    {
      && number == |log|
      && dropped == Dropped(|log|)
      && events == Numbered(log, dropped)
    }

    constructor ()
      ensures Valid() && log == []
    {
      log, events, number, dropped := [], [], 0, 0;
    }

    method Push(event: T)
      requires Valid()
      modifies this
      ensures Valid() && log == old(log) + [event]
    {
      number := number + 1;
      log := log + [event];
      events := events + [Entry(number, event)];
      assert events == Numbered(log, dropped);
      while |events| > RING_CAP
        invariant number == |log| && log == old(log) + [event]
        invariant dropped <= Dropped(|log|) && events == Numbered(log, dropped)
        decreases |events|
      {
        events := events[1..];
        dropped := dropped + 1;
      }
    }

    method Poll(since: nat) returns (reply: Reply<T>)
      requires Valid()
      ensures reply == Polled(log, Dropped(|log|), since)
    {
      var kept: seq<Entry<T>> := [];
      for i := 0 to |events|
        invariant kept == Above(events[..i], since)
      {
        assert events[..i + 1][..i] == events[..i];
        if events[i].number > since {
          kept := kept + [events[i]];
        }
      }
      AboveIsSuffix(log, dropped, |events|, since);
      assert events[..|events|] == events;
      reply := Reply(kept, number, dropped);
    }
  }

  // ---- A poller over a whole run ---------------------------------------------------

  datatype Event<T> = Record(event: T) | Read

  // The log so far, what the poller has been given, and the last number it
  // was told, which it feeds back.
  datatype Session<T> = Session(log: seq<T>, given: seq<Entry<T>>, since: nat)

  function Step<T>(s: Session<T>, e: Event<T>): Session<T> {
    match e
    case Record(x) => s.(log := s.log + [x])
    case Read =>
      var reply := Polled(s.log, Dropped(|s.log|), s.since);
      s.(given := s.given + reply.events, since := reply.last)
  }

  function Run<T>(events: seq<Event<T>>): Session<T> {
    if events == [] then Session([], [], 0) else Step(Run(events[..|events| - 1]), events[|events| - 1])
  }

  // The poller holds entries of the log, in order and without repeats, all of
  // them from before its last poll.
  ghost predicate Caught<T>(s: Session<T>) {
    && s.since <= |s.log|
    && (forall i :: 0 <= i < |s.given| ==>
          1 <= s.given[i].number <= s.since && s.given[i].event == s.log[s.given[i].number - 1])
    && (forall i, j :: 0 <= i < j < |s.given| ==> s.given[i].number < s.given[j].number)
  }

  lemma StepIsCaught<T>(s: Session<T>, e: Event<T>)
    requires Caught(s)
    ensures Caught(Step(s, e))
  {
  }

  /** A poller that feeds back `last` collects a subsequence of the log without
      repeats. */
  lemma {:induction false} PollerIsCaught<T>(events: seq<Event<T>>)
    ensures Caught(Run(events))
  {
    if events != [] {
      hide Step;
      PollerIsCaught(events[..|events| - 1]);
      StepIsCaught(Run(events[..|events| - 1]), events[|events| - 1]);
    }
  }

  ghost predicate Holds<T>(events: seq<Entry<T>>, n: nat) {
    exists i :: 0 <= i < |events| && events[i].number == n
  }

  /** What one poll misses is exactly what was dropped: a newer entry is in the
      reply, as recorded, unless it was dropped, and the reply shows a gap,
      `dropped` beyond what was fed back, exactly when some newer entry is not in
      it. */
  lemma GapIsDropped<T>(log: seq<T>, since: nat, n: nat)
    requires since <= |log| && since < n <= |log|
    ensures var reply := Polled(log, Dropped(|log|), since);
            && (Holds(reply.events, n) <==> n > reply.dropped)
            && (n > reply.dropped ==> Entry(n, log[n - 1]) in reply.events)
            && (reply.dropped > since <==> exists m :: since < m <= |log| && !Holds(reply.events, m))
            && |reply.events| <= RING_CAP
  {
    var reply := Polled(log, Dropped(|log|), since);
    HeldIfNotDropped(log, since, n);
    if reply.dropped > since {
      HeldIfNotDropped(log, since, since + 1);
    }
    forall m | since < m <= |log| && !Holds(reply.events, m)
      ensures reply.dropped > since
    {
      HeldIfNotDropped(log, since, m);
    }
  }

  lemma HeldIfNotDropped<T>(log: seq<T>, since: nat, n: nat)
    requires since < n <= |log|
    ensures var reply := Polled(log, Dropped(|log|), since);
            && (Holds(reply.events, n) <==> n > reply.dropped)
            && (n > reply.dropped ==> Entry(n, log[n - 1]) in reply.events)
  {
    var reply := Polled(log, Dropped(|log|), since);
    var from := Max(since, reply.dropped);
    if n > reply.dropped {
      assert reply.events[n - from - 1] == Entry(n, log[n - 1]);
    }
  }

  // Every read comes with no more behind it than the ring can hold.
  ghost predicate PollsInTime<T>(events: seq<Event<T>>) {
    forall k :: 0 <= k < |events| && events[k].Read? ==> Behind(Run(events[..k])) <= RING_CAP
  }

  // What was recorded since the last poll.
  function Behind<T>(s: Session<T>): int {
    |s.log| - s.since
  }

  // Everything up to the last poll has been given.
  ghost predicate GivenAll<T>(s: Session<T>) {
    forall n :: 1 <= n <= s.since ==> Holds(s.given, n)
  }

  // A read in time keeps everything given; a late one loses an entry, and what is
  // lost is lost for good.
  lemma StepGives<T>(s: Session<T>, e: Event<T>)
    requires Caught(s)
    ensures GivenAll(Step(s, e)) <==> GivenAll(s) && (e.Read? ==> Behind(s) <= RING_CAP)
  {
    if e.Read? {
      ReadGives(s);
    }
  }

  lemma GivenTogether<T>(a: seq<Entry<T>>, b: seq<Entry<T>>, n: nat)
    ensures Holds(a + b, n) <==> Holds(a, n) || Holds(b, n)
  {
    if i :| 0 <= i < |a| && a[i].number == n {
      assert (a + b)[i] == a[i];
    }
    if i :| 0 <= i < |b| && b[i].number == n {
      assert (a + b)[|a| + i] == b[i];
    }
  }

  lemma ReadGives<T>(s: Session<T>)
    requires Caught(s)
    ensures GivenAll(Step(s, Read)) <==> GivenAll(s) && Behind(s) <= RING_CAP
  {
    var reply, t := Polled(s.log, Dropped(|s.log|), s.since), Step(s, Read);
    forall n | 1 <= n <= |s.log|
      ensures Holds(t.given, n) <==> if n <= s.since then Holds(s.given, n) else n > reply.dropped
    {
      GivenTogether(s.given, reply.events, n);
      if n > s.since {
        HeldIfNotDropped(s.log, s.since, n);
      }
    }
    if Behind(s) > RING_CAP {
      assert !Holds(t.given, s.since + 1);
    }
  }

  /** A poller has been given everything up to its last poll exactly when each of
      its polls came with no more behind it than the ring holds. */
  lemma {:induction false} NothingIsMissed<T>(events: seq<Event<T>>)
    ensures GivenAll(Run(events)) <==> PollsInTime(events)
  {
    if events != [] {
      hide Step, GivenAll;
      var n := |events| - 1;
      var front := events[..n];
      NothingIsMissed(front);
      PollerIsCaught(front);
      StepGives(Run(front), events[n]);
      assert forall k :: 0 <= k < n ==> front[..k] == events[..k] && front[k] == events[k];
    } else {
      assert GivenAll(Run(events));
    }
  }
}
