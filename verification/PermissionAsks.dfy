/** Permission requests held for an answer: answered, expired, or closed with
    their tab (desktop-shell/src/btab.rs). */
module PermissionAsks {
  import opened Wrappers
  import opened Text
  import opened Permissions

  datatype Ask = Ask(tab: string, origin: string, kind: string)

  // What a request gets at once.
  datatype Verdict = Allowed | Denied | PlatformDefault | Held(id: nat) | NoTab

  /** `completions` counts, for each ask, how often its deferral was completed;
      `outcomes` is the last answer it was completed with; `watched` are the
      asks whose sixty-second watchdog has not run yet. */
  datatype State = State(policy: PolicyMap, open: set<string>, issued: nat, pending: map<nat, Ask>,
                         completions: multiset<nat>, outcomes: map<nat, bool>, watched: set<nat>)

  datatype Event =
    | OpenTab(arrived: string)
    | Request(ask: Ask, deferrable: bool)
    | Answer(id: nat, state: string, remember: bool)
    | Expire(expired: nat)
    | CloseTab(closed: string)
    | SetPolicy(origin: Option<string>, kind: string, state: string)

  function Complete(s: State, id: nat, allow: bool): State {
    s.(pending := s.pending - {id}, completions := s.completions + multiset{id}, outcomes := s.outcomes[id := allow])
  }

  function VerdictOf(s: State, ask: Ask, deferrable: bool): Verdict {
    if ask.tab !in s.open then NoTab
    else
      var d := Decide(s.policy, ask.origin, ask.kind);
      if d.NoPolicy? then PlatformDefault
      else if d.state == ALLOW then Allowed
      else if d.state == DENY then Denied
      else if d.state == ASK then (if deferrable then Held(s.issued + 1) else Denied)
      else PlatformDefault
  }

  function Requested(s: State, ask: Ask, deferrable: bool): State {
    match VerdictOf(s, ask, deferrable)
    case Held(id) => s.(issued := id, pending := s.pending[id := ask], watched := s.watched + {id})
    case _ => s
  }

  // "Always" writes the site's standing; a write that is refused is reported
  // after the request was already answered.
  function Remembered(policy: PolicyMap, ask: Ask, allow: bool): PolicyMap {
    match Write(policy, Some(ask.origin), ask.kind, if allow then ALLOW else DENY)
    case Ok(p) => p
    case Err(_) => policy
  }

  function Answered(s: State, id: nat, state: string, remember: bool): State {
    var word := Lower(Trim(state));
    if (word != ALLOW && word != DENY) || id !in s.pending then s
    else
      var allow := word == ALLOW;
      var done := Complete(s, id, allow);
      if remember then done.(policy := Remembered(s.policy, s.pending[id], allow)) else done
  }

  function Expired(s: State, id: nat): State {
    if id !in s.watched then s
    else
      var t := s.(watched := s.watched - {id});
      if id in s.pending then Complete(t, id, false) else t
  }

  function AsksOf(pending: map<nat, Ask>, tab: string): set<nat> {
    set id | id in pending && pending[id].tab == tab
  }

  // Each of the ids once.
  function Once(ids: set<nat>): multiset<nat> {
    multiset(ids)
  }

  function DenyAll(s: State, ids: set<nat>): State {
    s.(pending := s.pending - ids, completions := s.completions + Once(ids),
       outcomes := s.outcomes + map id | id in ids :: false)
  }

  // Every ask of the tab, denied.
  function Closed(s: State, tab: string): State {
    if tab !in s.open then s
    else DenyAll(s.(open := s.open - {tab}), AsksOf(s.pending, tab))
  }

  lemma DenyOneByOne(s: State, ids: set<nat>, id: nat)
    requires id in ids
    ensures DenyAll(Complete(s, id, false), ids - {id}) == DenyAll(s, ids)
  {
    var t, u := DenyAll(Complete(s, id, false), ids - {id}), DenyAll(s, ids);
    assert t.pending == u.pending;
    assert Once(ids) == Once(ids - {id}) + multiset{id};
    assert t.outcomes == u.outcomes;
  }

  lemma DenyNone(s: State)
    ensures DenyAll(s, {}) == s
  {
    assert s.pending - {} == s.pending && Once({}) == multiset{} && s.outcomes + map[] == s.outcomes;
  }

  function Step(s: State, e: Event): State {
    match e
    case OpenTab(tab) => s.(open := s.open + {tab})
    case Request(ask, deferrable) => Requested(s, ask, deferrable)
    case Answer(id, state, remember) => Answered(s, id, state, remember)
    case Expire(id) => Expired(s, id)
    case CloseTab(tab) => Closed(s, tab)
    case SetPolicy(origin, kind, state) =>
      match Write(s.policy, origin, kind, state)
      case Ok(p) => s.(policy := p)
      case Err(_) => s
  }

  function Run(s: State, events: seq<Event>): State {
    if events == [] then s else Step(Run(s, events[..|events| - 1]), events[|events| - 1])
  }

  const START := State(map[], {}, 0, map[], multiset{}, map[], {})

  /** The shell's side, updated in place. */
  class Shell {
    var policy: PolicyMap
    var open: set<string>
    var issued: nat
    var pending: map<nat, Ask>
    ghost var completions: multiset<nat>
    var outcomes: map<nat, bool>
    var watched: set<nat>

    ghost function Now(): State
      reads this
    {
      State(policy, open, issued, pending, completions, outcomes, watched)
    }

    constructor ()
      ensures Now() == START
    {
      policy, open, issued, pending := map[], {}, 0, map[];
      completions, outcomes, watched := multiset{}, map[], {};
    }

    method CompleteAsk(id: nat, allow: bool)
      modifies this`pending, this`completions, this`outcomes
      ensures Now() == Complete(old(Now()), id, allow)
    {
      pending := pending - {id};
      completions := completions + multiset{id};
      outcomes := outcomes[id := allow];
    }

    method RequestPermission(ask: Ask, deferrable: bool) returns (verdict: Verdict)
      modifies this
      ensures verdict == VerdictOf(old(Now()), ask, deferrable)
      ensures Now() == Requested(old(Now()), ask, deferrable)
    {
      hide Decide;
      if ask.tab !in open {
        return NoTab;
      }
      var d := Decide(policy, ask.origin, ask.kind);
      if d.NoPolicy? {
        return PlatformDefault;
      }
      if d.state == ALLOW {
        return Allowed;
      } else if d.state == DENY {
        return Denied;
      } else if d.state == ASK {
        if !deferrable {
          return Denied;
        }
        issued := issued + 1;
        pending := pending[issued := ask];
        watched := watched + {issued};
        return Held(issued);
      }
      return PlatformDefault;
    }

    method AnswerAsk(id: nat, state: string, remember: bool) returns (ok: bool)
      modifies this
      ensures Now() == Answered(old(Now()), id, state, remember)
      ensures !ok ==> Now() == old(Now()) || id in old(pending)
    {
      hide Lower, Trim, Write;
      var word := Lower(Trim(state));
      if word != ALLOW && word != DENY {
        return false;
      }
      if id !in pending {
        return false;
      }
      var ask := pending[id];
      CompleteAsk(id, word == ALLOW);
      if remember {
        match Write(policy, Some(ask.origin), ask.kind, if word == ALLOW then ALLOW else DENY)
        case Ok(p) => policy := p;
        case Err(_) => return false;
      }
      return true;
    }

    method ExpireAsk(id: nat)
      modifies this
      ensures Now() == Expired(old(Now()), id)
    {
      if id in watched {
        watched := watched - {id};
        if id in pending {
          CompleteAsk(id, false);
        }
      }
    }

    method Close(tab: string)
      modifies this
      ensures Now() == Closed(old(Now()), tab)
    {
      if tab !in open {
        return;
      }
      assert Closed(Now(), tab) == DenyAll(Now().(open := open - {tab}), AsksOf(pending, tab));
      open := open - {tab};
      hide DenyAll, Complete;
      ghost var before, gone := Now(), AsksOf(pending, tab);
      var asks := AsksOf(pending, tab);
      while asks != {}
        invariant DenyAll(Now(), asks) == DenyAll(before, gone)
        decreases asks
      {
        var id :| id in asks;
        DenyOneByOne(Now(), asks, id);
        CompleteAsk(id, false);
        asks := asks - {id};
      }
      DenyNone(Now());
    }
  }

  // ---- Completed once ----------------------------------------------------------

  // Ids are given out in order, and each is pending, or was completed once.
  ghost predicate Settled(s: State) {
    && (forall id :: id in s.pending ==> 1 <= id <= s.issued && s.completions[id] == 0)
    && (forall id :: 1 <= id <= s.issued && id !in s.pending ==> s.completions[id] == 1)
    && (forall id :: id in s.completions ==> 1 <= id <= s.issued && id in s.outcomes)
    && (forall id :: id in s.pending ==> id in s.watched && s.pending[id].tab in s.open)
    && (forall id :: id in s.watched ==> 1 <= id <= s.issued)
  }

  lemma CompleteSettles(s: State, id: nat, allow: bool)
    requires Settled(s) && id in s.pending
    ensures Settled(Complete(s, id, allow))
  {
  }

  lemma RequestSettles(s: State, ask: Ask, deferrable: bool)
    requires Settled(s)
    ensures Settled(Requested(s, ask, deferrable))
  {
    hide Decide;
  }

  lemma CloseSettles(s: State, tab: string)
    requires Settled(s)
    ensures Settled(Closed(s, tab))
  {
    if tab in s.open {
      var gone, t := AsksOf(s.pending, tab), Closed(s, tab);
      assert forall id: nat :: Once(gone)[id] == if id in gone then 1 else 0;
    }
  }

  lemma StepSettles(s: State, e: Event)
    requires Settled(s)
    ensures Settled(Step(s, e))
  {
    hide Lower, Trim, Write, Remembered, AsksOf, Requested, Closed, Settled;
    match e
    case OpenTab(tab) => SettledElsewhere(s, Step(s, e));
    case Request(ask, deferrable) => RequestSettles(s, ask, deferrable);
    case Answer(id, state, remember) =>
      if id in s.pending {
        var allow := Lower(Trim(state)) == ALLOW;
        CompleteSettles(s, id, allow);
        SettledElsewhere(Complete(s, id, allow), Complete(s, id, allow).(policy := Remembered(s.policy, s.pending[id], allow)));
      }
    case Expire(id) => ExpirySettles(s, id);
    case CloseTab(tab) => CloseSettles(s, tab);
    case SetPolicy(origin, kind, state) => SettledElsewhere(s, Step(s, e));
  }

  lemma SettledElsewhere(s: State, t: State)
    requires Settled(s) && t == s.(policy := t.policy, open := t.open) && s.open <= t.open
    ensures Settled(t)
  {
  }

  lemma ExpirySettles(s: State, id: nat)
    requires Settled(s)
    ensures Settled(Expired(s, id))
  {
    if id in s.watched && id in s.pending {
      CompleteSettles(s, id, false);
    }
  }

  /** Every ask is completed exactly once, under any interleaving of requests,
      answers, expiries and closed tabs: ids are issued in order, and each is
      either still pending, or was completed once and only once; what is
      pending belongs to an open tab and still has its watchdog, so once every
      watchdog has run nothing is pending. */
  lemma {:induction false} EveryAskOnce(events: seq<Event>)
    ensures var s := Run(START, events);
            && Settled(s)
            && (s.watched == {} ==> s.pending == map[])
  {
    if events != [] {
      hide Step;
      EveryAskOnce(events[..|events| - 1]);
      StepSettles(Run(START, events[..|events| - 1]), events[|events| - 1]);
    }
  }

  /** Closing a tab completes exactly its asks, as denied. */
  lemma ClosingDenies(s: State, tab: string, id: nat)
    requires Settled(s) && tab in s.open
    ensures var t := Closed(s, tab);
            && (id in t.pending ==> t.pending[id].tab != tab)
            && (id in s.pending && s.pending[id].tab == tab ==> t.completions[id] == 1 && t.outcomes[id] == false)
            && (id in s.pending && s.pending[id].tab != tab ==> id in t.pending && t.pending[id] == s.pending[id])
  {
    var gone := AsksOf(s.pending, tab);
    assert Once(gone)[id] == if id in gone then 1 else 0;
  }

  // ---- "Always" is remembered -----------------------------------------------------

  // The site's own entry, or the every-site one a blank origin writes, decides.
  ghost predicate Standing(policy: PolicyMap, ask: Ask) {
    var k := EntryKey(Some(ask.origin), ask.kind);
    k in policy && (policy[k] == ALLOW || policy[k] == DENY)
  }

  lemma RememberedStands(policy: PolicyMap, ask: Ask, allow: bool, other: Ask)
    requires PlainKind(ask.kind)
    ensures Standing(Remembered(policy, ask, allow), ask)
    ensures Standing(policy, other) ==> Standing(Remembered(policy, ask, allow), other)
  {
    assert Lower(Trim(ALLOW)) == ALLOW && Lower(Trim(DENY)) == DENY;
  }

  // Every kind the shell sees is one of the platform's names.
  ghost predicate PlainKinds(s: State) {
    forall id :: id in s.pending ==> PlainKind(s.pending[id].kind)
  }

  ghost predicate KeepsPolicy(e: Event) {
    !e.SetPolicy? && (e.Request? ==> PlainKind(e.ask.kind))
  }

  lemma StandingStays(s: State, e: Event, ask: Ask)
    requires PlainKinds(s) && KeepsPolicy(e) && Standing(s.policy, ask)
    ensures PlainKinds(Step(s, e)) && Standing(Step(s, e).policy, ask)
  {
    hide Lower, Trim, Decide, Remembered, EntryKey, PlainKind, Standing;
    if e.Answer? && e.id in s.pending {
      RememberedStands(s.policy, s.pending[e.id], Lower(Trim(e.state)) == ALLOW, ask);
    }
  }

  // A standing decides its site's requests without asking, but for one corner:
  // a request without an origin writes the every-site entry, which an entry
  // of the empty site itself outranks.
  lemma StandingDecides(s: State, ask: Ask, later: Ask)
    requires Standing(s.policy, ask) && PlainKind(ask.kind)
    requires SiteOf(later.origin) == SiteOf(ask.origin) && later.kind == ask.kind
    ensures VerdictOf(s, later, true).Held? <==>
            && later.tab in s.open
            && Trim(ask.origin) == ""
            && Key(later.origin, later.kind) in s.policy && s.policy[Key(later.origin, later.kind)] == ASK
  {
    EntryIsWritten(Some(ask.origin), ask.kind);
    hide SiteOf, KindOf, Trim, EntryKey;
  }

  lemma {:induction false} StandingLasts(s: State, events: seq<Event>, ask: Ask)
    requires PlainKinds(s) && Standing(s.policy, ask) && forall i :: 0 <= i < |events| ==> KeepsPolicy(events[i])
    ensures PlainKinds(Run(s, events)) && Standing(Run(s, events).policy, ask)
  {
    if events != [] {
      hide Step, Standing, KeepsPolicy, PlainKinds;
      StandingLasts(s, events[..|events| - 1], ask);
      StandingStays(Run(s, events[..|events| - 1]), events[|events| - 1], ask);
    }
  }

  // An origin whose standing is every site's: none, or the one that stands for all.
  predicate NamesNoSite(origin: string) {
    Trim(origin) == "" || SiteOf(origin) == SiteOf(ANY_SITE)
  }

  /** How far an answer reaches: "always" on an ask decides the other sites' requests
      too exactly when the ask named no site; then it decides those of its kind
      from every site without an entry of its own. */
  lemma AnswerReachesOthers(s: State, id: nat, state: string, o: string, k: string)
    requires id in s.pending && PlainKind(s.pending[id].kind) && PlainKind(k)
    requires Lower(Trim(state)) == ALLOW || Lower(Trim(state)) == DENY
    requires SiteOf(o) != SiteOf(Written(Some(s.pending[id].origin)))
    ensures var ask, word, after := s.pending[id], Lower(Trim(state)), Answered(s, id, state, true).policy;
            var reached := NamesNoSite(ask.origin) && k == ask.kind && Key(o, k) !in s.policy;
            && Decide(after, o, k) == (if reached then Kind(word) else Decide(s.policy, o, k))
            && (Decide(after, o, k) != Decide(s.policy, o, k) <==>
                reached && !(Key(ANY_SITE, k) in s.policy && s.policy[Key(ANY_SITE, k)] == word))
  {
    var ask, word := s.pending[id], Lower(Trim(state));
    AnswerWrites(s, id, state);
    AnySiteIsWritten(ask.origin);
    WriteDecides(s.policy, Some(ask.origin), ask.kind, word, o, k);
    if Key(o, k) !in s.policy {
      UnnamedDecision(s.policy, o, k);
    }
    hide Lower, Trim, SiteOf, Key, Write, Written, PlainKind, Answered, Decide, NamesNoSite;
  }

  lemma AnswerWrites(s: State, id: nat, state: string)
    requires id in s.pending && PlainKind(s.pending[id].kind)
    requires Lower(Trim(state)) == ALLOW || Lower(Trim(state)) == DENY
    ensures var ask, word := s.pending[id], Lower(Trim(state));
            && Lower(Trim(word)) == word && word != DEFAULT
            && Write(s.policy, Some(ask.origin), ask.kind, word) == Ok(Answered(s, id, state, true).policy)
  {
    WordsAreWords();
    hide Lower, Trim, EntryKey;
  }

  // What an origin without an entry of its own is decided by.
  lemma UnnamedDecision(policy: PolicyMap, o: string, k: string)
    requires PlainKind(k) && Key(o, k) !in policy
    ensures Decide(policy, o, k) == if Key(ANY_SITE, k) in policy then Kind(policy[Key(ANY_SITE, k)]) else NoPolicy
  {
    hide SiteOf;
  }

  lemma WordsAreWords()
    ensures Lower(Trim(ALLOW)) == ALLOW && Lower(Trim(DENY)) == DENY && Lower(Trim(ASK)) == ASK
    ensures ALLOW != DEFAULT && DENY != DEFAULT
  {
    assert ALLOW[0] != DEFAULT[0] && DENY[2] != DEFAULT[2];
  }

  lemma AnySiteIsWritten(origin: string)
    ensures SiteOf(Written(Some(origin))) == SiteOf(ANY_SITE) <==> NamesNoSite(origin)
  {
    hide SiteOf, Trim;
  }

  // ---- A blank origin ----------------------------------------------------------------

  const CAMERA: string := "camera"
  const BLANK: Ask := Ask("tab", "", CAMERA)

  // The empty site is told to ask, and a request without an origin is answered
  // "always allow".
  function BlankRun(): seq<Event> {
    [SetPolicy(Some("/"), CAMERA, ASK), OpenTab("tab"), Request(BLANK, true), Answer(1, ALLOW, true)]
  }

  lemma CameraIsPlain()
    ensures PlainKind(CAMERA)
  {
  }

  // A request without an origin and one from "/" are of the same, empty site; the
  // every-site entry is another.
  lemma EmptySites()
    ensures SiteOf("/") == SiteOf("") == "" && SiteOf(ANY_SITE) != "" && Trim("") == "" && Trim("/") != ""
  {
    assert Trim("/") == "/" && Trim(ANY_SITE) == ANY_SITE;
    assert SchemeEnd("/") == 0 && SchemeEnd(ANY_SITE) == 0;
    assert "/"[0..] == "/" && ANY_SITE[0..] == ANY_SITE;
  }

  lemma BlankKeys()
    ensures var asked, everywhere := Key("", CAMERA), Key(ANY_SITE, CAMERA);
            && EntryKey(Some("/"), CAMERA) == asked != everywhere == EntryKey(Some(""), CAMERA)
  {
    EmptySites();
    CameraIsPlain();
    KeyIsSiteAndKind("", CAMERA, ANY_SITE, CAMERA);
    KeyIsSiteAndKind("", CAMERA, "/", CAMERA);
    EntryIsWritten(Some("/"), CAMERA);
    EntryIsWritten(Some(""), CAMERA);
    hide SiteOf, Trim, KindOf;
  }

  /** "Always" can be forgotten: the same request, without an origin, is held again. */
  lemma ABlankOriginIsAskedAgain()
    ensures VerdictOf(Run(START, BlankRun()), BLANK, true) == Held(2)
    ensures Standing(Run(START, BlankRun()).policy, BLANK)
  {
    BlankKeys();
    CameraIsPlain();
    WordsAreWords();
    hide SiteOf, Trim, Lower, Key, EntryKey;
    var asked, everywhere := Key("", CAMERA), Key(ANY_SITE, CAMERA);
    var a := Step(START, SetPolicy(Some("/"), CAMERA, ASK));
    assert a.policy == map[asked := ASK];
    var b := Step(a, OpenTab("tab"));
    var c := Step(b, Request(BLANK, true));
    assert c.pending == map[1 := BLANK] && c.policy == a.policy && c.issued == 1;
    var d := Step(c, Answer(1, ALLOW, true));
    assert d.policy == map[asked := ASK, everywhere := ALLOW] && d.issued == 1 && d.open == {"tab"};
    RunIsSteps();
  }

  lemma RunIsSteps()
    ensures Run(START, BlankRun()) ==
            Step(Step(Step(Step(START, SetPolicy(Some("/"), CAMERA, ASK)), OpenTab("tab")), Request(BLANK, true)), Answer(1, ALLOW, true))
  {
    hide Step;
    var run := BlankRun();
    assert run[..3][..2] == run[..2] && run[..2][..1] == run[..1] && run[..1][..0] == [];
    assert Run(START, run[..1]) == Step(START, run[0]);
    assert Run(START, run[..2]) == Step(Run(START, run[..1]), run[1]);
    assert Run(START, run[..3]) == Step(Run(START, run[..2]), run[2]);
    assert Run(START, run) == Step(Run(START, run[..3]), run[3]);
  }
}
