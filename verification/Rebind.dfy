/** The daemon's serving loop (cmd/picode/main.go): one server, moved on request by
    binding the new address before dropping the old one. */
module Rebind {
  import opened Wrappers

  datatype Range = Range(min: nat, max: nat)

  datatype Config = Config(host: string, ports: Range)

  // A server listens on one host and port.
  datatype Server = Server(host: string, port: nat)

  // What the settings table holds: a host, and a port range or text that is not one.
  datatype Settings = Settings(host: string, ports: Option<Range>)

  // What one request to rebind meets: for each of the three binds it may try, the
  // ports that are free on the host asked for; and whether the settings written
  // back reach the table.
  datatype Weather = Weather(first: set<nat>, second: set<nat>, third: set<nat>, hostKept: bool, portsKept: bool)

  datatype Event = Save(settings: Settings) | Request(weather: Weather)

  // The first free port of a range.
  function Lowest(ports: Range, free: set<nat>): Option<nat>
    decreases ports.max - ports.min
  {
    if ports.min > ports.max then None
    else if ports.min in free then Some(ports.min)
    else Lowest(Range(ports.min + 1, ports.max), free)
  }

  // What the loop holds: the server running, if any, the configuration and port it
  // believes in, and what clients read: the port in memory and the discovery file's
  // server.
  datatype State = State(live: seq<Server>, cfg: Config, port: nat, settings: Settings,
                         shownPort: nat, shownServer: Server, exited: bool)

  function Moved(s: State, cfg: Config, port: nat): State {
    s.(live := [Server(cfg.host, port)], cfg := cfg, port := port, shownPort := port, shownServer := Server(cfg.host, port))
  }

  function Reverted(s: State, weather: Weather): State {
    s.(settings := Settings(if weather.hostKept then s.cfg.host else s.settings.host,
                            if weather.portsKept then Some(s.cfg.ports) else s.settings.ports))
  }

  function Restored(s: State, weather: Weather): State {
    match Lowest(s.cfg.ports, weather.third)
    case None => Reverted(s, weather).(live := [], exited := true)
    case Some(port) => Reverted(s, weather).(live := [Server(s.cfg.host, port)], port := port)
  }

  function Rebound(s: State, weather: Weather): State {
    if s.settings.ports.None? then s
    else
      var cfg := Config(s.settings.host, s.settings.ports.value);
      if cfg == s.cfg then s.(shownServer := Server(cfg.host, s.port))
      else
        match Lowest(cfg.ports, weather.first)
        case Some(port) => Moved(s, cfg, port)
        case None =>
          if cfg.host == s.cfg.host then Reverted(s, weather)
          else
            match Lowest(cfg.ports, weather.second)
            case Some(port) => Moved(s, cfg, port)
            case None => Restored(s, weather)
  }

  function Step(s: State, e: Event): State {
    if s.exited then s
    else
      match e
      case Save(settings) => s.(settings := settings)
      case Request(weather) => Rebound(s, weather)
  }

  function Run(s: State, events: seq<Event>): State {
    if events == [] then s else Step(Run(s, events[..|events| - 1]), events[|events| - 1])
  }

  ghost predicate Started(s: State) {
    && s.cfg.ports.min <= s.port <= s.cfg.ports.max
    && s.live == [Server(s.cfg.host, s.port)]
    && s.shownPort == s.port && s.shownServer == s.live[0] && !s.exited
  }

  // ---- The loop -----------------------------------------------------------------------

  class Daemon {
    var live: seq<Server>
    var cfg: Config
    var port: nat
    var settings: Settings
    var shownPort: nat
    var shownServer: Server
    var exited: bool
    // The fewest servers there have been since the request was taken up.
    ghost var fewest: nat

    ghost function View(): State
      reads this
    {
      State(live, cfg, port, settings, shownPort, shownServer, exited)
    }

    // Ports of a range in order, the first that binds.
    static method Bind(ports: Range, free: set<nat>) returns (port: Option<nat>)
      ensures port == Lowest(ports, free)
      ensures port.Some? ==> ports.min <= port.value <= ports.max && port.value in free
      ensures forall p :: ports.min <= p <= ports.max && p in free ==> port.Some? && port.value <= p
    {
      var p := ports.min;
      while p <= ports.max
        invariant Lowest(ports, free) == Lowest(Range(p, ports.max), free)
        invariant p >= ports.min && forall q :: ports.min <= q < p ==> q !in free
      {
        if p in free {
          return Some(p);
        }
        p := p + 1;
      }
      return None;
    }

    method Start(newCfg: Config, newPort: nat)
      modifies `live
      ensures live == old(live) + [Server(newCfg.host, newPort)]
    {
      live := live + [Server(newCfg.host, newPort)];
    }

    // Closes the server that has been running longest: the loop's `srv`.
    method Shutdown()
      requires live != []
      modifies `live, `fewest
      ensures live == old(live)[1..]
      ensures fewest == if |live| < old(fewest) then |live| else old(fewest)
    {
      live := live[1..];
      fewest := if |live| < fewest then |live| else fewest;
    }

    method Publish(newCfg: Config, newPort: nat)
      modifies `cfg, `port, `shownPort, `shownServer
      ensures cfg == newCfg && port == newPort && shownPort == newPort && shownServer == Server(newCfg.host, newPort)
    {
      cfg, port := newCfg, newPort;
      shownPort, shownServer := newPort, Server(newCfg.host, newPort);
    }

    method Revert(weather: Weather)
      modifies `settings
      ensures settings == Reverted(old(View()), weather).settings
    {
      if weather.hostKept { settings := settings.(host := cfg.host); }
      if weather.portsKept { settings := settings.(ports := Some(cfg.ports)); }
    }

    /** One request: the loop ends as Rebound says, and there is a moment without a
        server exactly when the host changes and the new one cannot be bound
        beside the old. */
    method Rebind(weather: Weather)
      requires |live| == 1 && !exited
      modifies this
      ensures View() == Rebound(old(View()), weather)
      ensures fewest == 0 <==> (old(settings).ports.Some? && old(settings).host != old(cfg).host &&
                                Lowest(old(settings).ports.value, weather.first).None?)
    {
      fewest := 1;
      if settings.ports.None? {
        return;
      }
      var newCfg := Config(settings.host, settings.ports.value);
      if newCfg == cfg {
        shownServer := Server(newCfg.host, port);
        return;
      }
      var newPort := Bind(newCfg.ports, weather.first);
      if newPort.None? && newCfg.host != cfg.host {
        Shutdown();
        newPort := Bind(newCfg.ports, weather.second);
        if newPort.None? {
          Revert(weather);
          var back := Bind(cfg.ports, weather.third);
          if back.None? {
            exited := true;
          } else {
            Start(cfg, back.value);
            port := back.value;
          }
          return;
        }
        Start(newCfg, newPort.value);
      } else if newPort.None? {
        Revert(weather);
        return;
      } else {
        Start(newCfg, newPort.value);
        Shutdown();
      }
      Publish(newCfg, newPort.value);
    }
  }

  // ---- Laws ---------------------------------------------------------------------------

  lemma {:induction false} LowestIsInRange(ports: Range, free: set<nat>)
    ensures var p := Lowest(ports, free);
            p.Some? ==> ports.min <= p.value <= ports.max && p.value in free
    decreases ports.max - ports.min
  {
    if ports.min <= ports.max && ports.min !in free {
      LowestIsInRange(Range(ports.min + 1, ports.max), free);
    }
  }

  ghost predicate Serving(s: State) {
    if s.exited then s.live == []
    else s.live == [Server(s.cfg.host, s.port)] && s.cfg.ports.min <= s.port <= s.cfg.ports.max
  }

  /** Whenever the loop waits, exactly one server is live, on the configured host and
      a port of the configured range: over every run, until the daemon exits. */
  lemma {:induction false} NeverDown(s: State, events: seq<Event>)
    requires Started(s)
    ensures Serving(Run(s, events))
  {
    if events != [] {
      var before, e := Run(s, events[..|events| - 1]), events[|events| - 1];
      NeverDown(s, events[..|events| - 1]);
      StepServes(before, e);
    }
  }

  lemma StepServes(s: State, e: Event)
    requires Serving(s)
    ensures Serving(Step(s, e))
  {
    hide Lowest;
    if e.Request? {
      var w := e.weather;
      LowestIsInRange(s.cfg.ports, w.third);
      if s.settings.ports.Some? {
        LowestIsInRange(s.settings.ports.value, w.first);
        LowestIsInRange(s.settings.ports.value, w.second);
      }
    }
  }

  // ---- What is written down ------------------------------------------------------------

  // A request that asks for another address.
  ghost predicate Asks(s: State) {
    s.settings.ports.Some? && Config(s.settings.host, s.settings.ports.value) != s.cfg
  }

  // No bind of the new address succeeds: beside the old server, or, when the host
  // changes, after it is gone.
  ghost predicate Refused(s: State, w: Weather) {
    && Asks(s)
    && Lowest(s.settings.ports.value, w.first).None?
    && (s.settings.host == s.cfg.host || Lowest(s.settings.ports.value, w.second).None?)
  }

  ghost predicate Agrees(s: State) {
    s.settings == Settings(s.cfg.host, Some(s.cfg.ports))
  }

  /** After a request the settings name what is being served, unless they hold no
      port range, or the request was refused and a setting that had to be written
      back was not kept. A refused request leaves the configuration as it was, and
      every other one that asks for another address is granted it. */
  lemma SettingsSettle(s: State, w: Weather)
    requires Serving(s) && !s.exited
    ensures var t := Step(s, Request(w));
            && (Agrees(t) <==> s.settings.ports.Some? &&
                               (Refused(s, w) ==> (w.hostKept || s.settings.host == s.cfg.host) &&
                                                  (w.portsKept || s.settings.ports.value == s.cfg.ports)))
            && (Refused(s, w) || !Asks(s) ==> t.cfg == s.cfg)
            && (Asks(s) && !Refused(s, w) ==> t.cfg == Config(s.settings.host, s.settings.ports.value))
  {
    hide Lowest;
  }

  /** The daemon gives up exactly when the host was to change, nothing binds it, and
      the old address no longer binds either. */
  lemma ExitsOnlyWithoutAnAddress(s: State, w: Weather)
    requires Serving(s) && !s.exited
    ensures Step(s, Request(w)).exited <==>
            Refused(s, w) && s.settings.host != s.cfg.host && Lowest(s.cfg.ports, w.third).None?
  {
    hide Lowest;
  }

  // A refused move that put the old listener back on another of its ports.
  ghost predicate RestoredElsewhere(s: State, e: Event) {
    && !s.exited && e.Request? && Refused(s, e.weather) && s.settings.host != s.cfg.host
    && Lowest(s.cfg.ports, e.weather.third).Some? && Lowest(s.cfg.ports, e.weather.third).value != s.port
  }

  ghost predicate Shown(s: State) {
    !s.exited ==> s.shownPort == s.port && s.live == [s.shownServer]
  }

  /** What clients read stays the live address through exactly the steps that do not
      restore the old listener on another port. */
  lemma ShownStaysTrue(s: State, e: Event)
    requires Serving(s) && Shown(s)
    ensures Shown(Step(s, e)) <==> !RestoredElsewhere(s, e)
  {
    hide Lowest;
  }

  /** So over a run without such a restore, clients always read the live address. */
  lemma {:induction false} ShownOverRuns(s: State, events: seq<Event>)
    requires Started(s)
    requires forall n :: 0 <= n < |events| ==> !RestoredElsewhere(Run(s, events[..n]), events[n])
    ensures Shown(Run(s, events))
  {
    if events != [] {
      var n := |events| - 1;
      var front := events[..n];
      forall m | 0 <= m < |front| ensures !RestoredElsewhere(Run(s, front[..m]), front[m]) {
        assert front[..m] == events[..m];
      }
      ShownOverRuns(s, front);
      NeverDown(s, front);
      ShownStaysTrue(Run(s, front), events[n]);
    }
  }

  /** Once it has happened, a request that changes nothing corrects the discovery
      file and leaves the port in memory wrong. */
  lemma RefreshCorrectsTheFileOnly(s: State, w: Weather)
    requires Serving(s) && !s.exited && s.settings.ports.Some? && !Asks(s)
    ensures var t := Step(s, Request(w));
            t.live == s.live == [t.shownServer] && t.shownPort == s.shownPort && t.port == s.port
  {
  }

  /** Clients can be left with a dead address: a daemon on port 8443 asked to move to
      every interface, which nothing lets it bind, comes back on 8444 and does not
      say so. */
  lemma AMoveLeavesClientsBehind(s: State, w: Weather)
    requires s.cfg == Config("127.0.0.1", Range(8443, 8444)) && s.port == 8443 && Started(s)
    requires s.settings == Settings("0.0.0.0", Some(s.cfg.ports))
    requires w.first == w.second == {} && w.third == {8444}
    ensures var t := Step(s, Request(w));
            !t.exited && t.live == [Server("127.0.0.1", 8444)] && t.shownPort == 8443 &&
            t.shownServer == Server("127.0.0.1", 8443) && !Shown(t)
  {
    assert s.settings.host[0] != s.cfg.host[0];
    assert Lowest(s.cfg.ports, w.third) == Some(8444);
  }
}
