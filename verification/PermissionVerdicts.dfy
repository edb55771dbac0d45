/** What the user decided is what requests get: over runs, each state of an entry and
    the verdict it stands for, and each answer and the outcome it has. */
module PermissionVerdicts {
  import opened Wrappers
  import opened Text
  import opened Permissions
  import opened PermissionAsks

  // ---- An entry stays until it is written -------------------------------------------

  // An event that writes an entry: a policy set for it, or an answer to be remembered.
  ghost predicate Writes(s: State, e: Event, entry: string) {
    match e
    case SetPolicy(origin, kind, _) => Key(Written(origin), KindOf(kind)) == entry
    case Answer(id, _, remember) =>
      remember && id in s.pending && Key(Written(Some(s.pending[id].origin)), KindOf(s.pending[id].kind)) == entry
    case _ => false
  }

  ghost predicate Unwritten(s: State, events: seq<Event>, entry: string) {
    forall k :: 0 <= k < |events| ==> !Writes(Run(s, events[..k]), events[k], entry)
  }

  ghost predicate SameEntry(a: PolicyMap, b: PolicyMap, entry: string) {
    (entry in a <==> entry in b) && (entry in a ==> a[entry] == b[entry])
  }

  lemma StepKeepsEntry(s: State, e: Event, entry: string)
    requires !Writes(s, e, entry)
    ensures SameEntry(s.policy, Step(s, e).policy, entry)
  {
    hide Lower, Trim, Write, Key, KindOf, Written, Requested, Expired, Closed, Answered;
    match e
    case SetPolicy(origin, kind, state) => WriteKeepsOthers(s.policy, origin, kind, state, entry);
    case Answer(id, state, remember) => AnswerKeepsEntry(s, id, state, remember, entry);
    case Request(ask, deferrable) => OthersKeepPolicy(s, e);
    case Expire(id) => OthersKeepPolicy(s, e);
    case CloseTab(tab) => OthersKeepPolicy(s, e);
    case OpenTab(tab) =>
  }

  lemma OthersKeepPolicy(s: State, e: Event)
    requires e.Request? || e.Expire? || e.CloseTab?
    ensures Step(s, e).policy == s.policy
  {
    hide Decide;
  }

  lemma AnswerKeepsEntry(s: State, id: nat, state: string, remember: bool, entry: string)
    requires !Writes(s, Answer(id, state, remember), entry)
    ensures SameEntry(s.policy, Answered(s, id, state, remember).policy, entry)
  {
    hide Lower, Trim, Write, Key, KindOf, Written;
    if remember && id in s.pending {
      var ask := s.pending[id];
      WriteKeepsOthers(s.policy, Some(ask.origin), ask.kind, ALLOW, entry);
      WriteKeepsOthers(s.policy, Some(ask.origin), ask.kind, DENY, entry);
    }
  }

  lemma WriteKeepsOthers(policy: PolicyMap, origin: Option<string>, kind: string, state: string, entry: string)
    requires Key(Written(origin), KindOf(kind)) != entry
    ensures Write(policy, origin, kind, state).Ok? ==> SameEntry(policy, Write(policy, origin, kind, state).value, entry)
  {
    EntryIsWritten(origin, KindOf(kind));
    hide Lower, Trim, Key, KindOf, Written, EntryKey;
  }

  lemma {:induction false} EntryStays(s: State, events: seq<Event>, entry: string)
    requires Unwritten(s, events, entry)
    ensures SameEntry(s.policy, Run(s, events).policy, entry)
  {
    if events != [] {
      hide Step, Writes;
      var n := |events| - 1;
      var front := events[..n];
      assert forall k :: 0 <= k < n ==> front[..k] == events[..k] && front[k] == events[k];
      EntryStays(s, front, entry);
      StepKeepsEntry(Run(s, front), events[n], entry);
    }
  }

  // ---- What an entry stands for ---------------------------------------------------------

  // The verdict the user chose with a word: allowed, denied, or asked.
  ghost predicate Chosen(word: string, s: State, ask: Ask, deferrable: bool) {
    var verdict, after := VerdictOf(s, ask, deferrable), Requested(s, ask, deferrable);
    && (word == "allow" ==> verdict == Allowed && after == s)
    && (word == "deny" ==> verdict == Denied && after == s)
    && (word == "ask" && !deferrable ==> verdict == Denied && after == s)
    && (word == "ask" && deferrable ==>
          && verdict == Held(s.issued + 1) && after.issued == s.issued + 1
          && after.pending == s.pending[s.issued + 1 := ask] && after.policy == s.policy)
  }

  // A request from a site whose own entry, or else every site's, holds a word.
  lemma EntryChooses(s: State, ask: Ask, site: string, word: string, deferrable: bool)
    requires ask.tab in s.open && PlainKind(ask.kind)
    requires Key(site, ask.kind) in s.policy && s.policy[Key(site, ask.kind)] == word
    requires SiteOf(ask.origin) == SiteOf(site)
             || (SiteOf(site) == SiteOf(ANY_SITE) && Key(ask.origin, ask.kind) !in s.policy)
    ensures Chosen(word, s, ask, deferrable)
  {
    KeyIsSiteAndKind(ask.origin, ask.kind, site, ask.kind);
    KeyIsSiteAndKind(ANY_SITE, ask.kind, site, ask.kind);
    StatesDiffer();
    hide Key, SiteOf, Lower, Trim;
  }

  lemma StatesDiffer()
    ensures ALLOW == "allow" && DENY == "deny" && ASK == "ask" && ALLOW != DENY && ALLOW != ASK && DENY != ASK
  {
    assert ALLOW[1] != DENY[1] && ALLOW[1] != ASK[1] && DENY[0] != ASK[0];
  }

  /** What the user set is what requests get: after a policy is set for a site, and
      until its entry is written again, every request of that site and kind from an
      open tab is allowed, denied, or held under the next id, as the word says; one
      set for every site does the same for sites without an entry of their own. */
  lemma SetPolicyDecides(s: State, origin: Option<string>, state: string, events: seq<Event>, later: Ask, deferrable: bool)
    requires PlainKind(later.kind)
    requires var word := Lower(Trim(state)); word == "allow" || word == "deny" || word == "ask"
    requires Unwritten(Step(s, SetPolicy(origin, later.kind, state)), events, Key(Written(origin), later.kind))
    requires var t := Run(Step(s, SetPolicy(origin, later.kind, state)), events);
             && later.tab in t.open
             && (SiteOf(later.origin) == SiteOf(Written(origin))
                 || (SiteOf(Written(origin)) == SiteOf(ANY_SITE) && Key(later.origin, later.kind) !in t.policy))
    ensures var t := Run(Step(s, SetPolicy(origin, later.kind, state)), events);
            Chosen(Lower(Trim(state)), t, later, deferrable)
  {
    var word, entry := Lower(Trim(state)), Key(Written(origin), later.kind);
    var first := Step(s, SetPolicy(origin, later.kind, state));
    PolicyIsSet(s, origin, later.kind, state);
    EntryStays(first, events, entry);
    hide Step, Run, Key, Lower, Trim, SiteOf, Written, Chosen, Unwritten;
    EntryChooses(Run(first, events), later, Written(origin), word, deferrable);
  }

  lemma PolicyIsSet(s: State, origin: Option<string>, kind: string, state: string)
    requires PlainKind(kind)
    requires var word := Lower(Trim(state)); word == "allow" || word == "deny" || word == "ask"
    ensures Step(s, SetPolicy(origin, kind, state)).policy == s.policy[Key(Written(origin), kind) := Lower(Trim(state))]
  {
    EntryIsWritten(origin, kind);
    hide Lower, Trim, Key, Written, EntryKey;
  }

  /** Forgetting a site's entry leaves its requests to every site's entry, and to the
      platform when there is none. */
  lemma ForgettingFallsBack(s: State, origin: Option<string>, state: string, events: seq<Event>, later: Ask, deferrable: bool)
    requires PlainKind(later.kind) && Lower(Trim(state)) == "default"
    requires Unwritten(Step(s, SetPolicy(origin, later.kind, state)), events, Key(Written(origin), later.kind))
    requires var t := Run(Step(s, SetPolicy(origin, later.kind, state)), events);
             later.tab in t.open && SiteOf(later.origin) == SiteOf(Written(origin))
    ensures var t := Run(Step(s, SetPolicy(origin, later.kind, state)), events);
            if Key(ANY_SITE, later.kind) in t.policy then Chosen(t.policy[Key(ANY_SITE, later.kind)], t, later, deferrable)
            else VerdictOf(t, later, deferrable) == PlatformDefault && Requested(t, later, deferrable) == t
  {
    var entry := Key(Written(origin), later.kind);
    var first := Step(s, SetPolicy(origin, later.kind, state));
    PolicyIsForgotten(s, origin, later.kind, state);
    EntryStays(first, events, entry);
    var t := Run(first, events);
    KeyIsSiteAndKind(later.origin, later.kind, Written(origin), later.kind);
    if Key(ANY_SITE, later.kind) in t.policy {
      hide Step, Run, Lower, Trim, Chosen, Unwritten;
      EntryChooses(t, later, ANY_SITE, t.policy[Key(ANY_SITE, later.kind)], deferrable);
    } else {
      hide Step, Run, Lower, Trim, Chosen, Unwritten, Key, SiteOf, Written;
      assert KindOf(later.kind) == later.kind;
    }
  }

  lemma PolicyIsForgotten(s: State, origin: Option<string>, kind: string, state: string)
    requires PlainKind(kind) && Lower(Trim(state)) == "default"
    ensures Step(s, SetPolicy(origin, kind, state)).policy == s.policy - {Key(Written(origin), kind)}
  {
    EntryIsWritten(origin, kind);
    assert DEFAULT[0] != ALLOW[0] && DEFAULT[0] != ASK[0] && DEFAULT[2] != DENY[2];
    hide Lower, Trim, Key, Written, EntryKey;
  }

  // ---- "Always" is remembered ---------------------------------------------------------

  lemma AnswerWritesItsEntry(s: State, id: nat, state: string)
    requires id in s.pending && PlainKind(s.pending[id].kind)
    requires Lower(Trim(state)) == ALLOW || Lower(Trim(state)) == DENY
    ensures var ask := s.pending[id];
            Answered(s, id, state, true).policy == s.policy[Key(Written(Some(ask.origin)), ask.kind) := Lower(Trim(state))]
  {
    AnswerWrites(s, id, state);
    EntryIsWritten(Some(s.pending[id].origin), s.pending[id].kind);
    hide Lower, Trim, Key, Written, EntryKey, Answered;
  }

  /** The answer that was remembered is the one later requests get: until its entry
      is written again, every request of that site and kind from an open tab is
      allowed or denied as the user answered; one given without an origin, for every
      site without an entry of its own. */
  lemma RememberedDecides(s: State, id: nat, state: string, events: seq<Event>, later: Ask, deferrable: bool)
    requires id in s.pending && PlainKind(s.pending[id].kind) && later.kind == s.pending[id].kind
    requires Lower(Trim(state)) == ALLOW || Lower(Trim(state)) == DENY
    requires Unwritten(Answered(s, id, state, true), events, Key(Written(Some(s.pending[id].origin)), later.kind))
    requires var t, site := Run(Answered(s, id, state, true), events), Written(Some(s.pending[id].origin));
             && later.tab in t.open
             && (SiteOf(later.origin) == SiteOf(site)
                 || (SiteOf(site) == SiteOf(ANY_SITE) && Key(later.origin, later.kind) !in t.policy))
    ensures var t := Run(Answered(s, id, state, true), events);
            && VerdictOf(t, later, deferrable) == (if Lower(Trim(state)) == "allow" then Allowed else Denied)
            && Requested(t, later, deferrable) == t
  {
    var site, word := Written(Some(s.pending[id].origin)), Lower(Trim(state));
    var first := Answered(s, id, state, true);
    AnswerWritesItsEntry(s, id, state);
    EntryStays(first, events, Key(site, later.kind));
    StatesDiffer();
    hide Run, Key, Lower, Trim, SiteOf, Written, Unwritten, Answered, VerdictOf, Requested;
    EntryChooses(Run(first, events), later, site, word, deferrable);
  }

  /** "Always" is remembered: after an answer given with it, and until the policy
      is set again, no later request of that site and kind is held, whatever else
      happens in between; and until its entry is written again every one from an
      open tab gets the answer that was given. */
  lemma AlwaysIsRemembered(s: State, id: nat, state: string, events: seq<Event>, later: Ask, deferrable: bool)
    requires PlainKinds(s) && id in s.pending && Trim(s.pending[id].origin) != ""
    requires Lower(Trim(state)) == ALLOW || Lower(Trim(state)) == DENY
    requires forall i :: 0 <= i < |events| ==> KeepsPolicy(events[i])
    requires SiteOf(later.origin) == SiteOf(s.pending[id].origin) && later.kind == s.pending[id].kind
    ensures var t := Run(Answered(s, id, state, true), events);
            && !VerdictOf(t, later, deferrable).Held? && Requested(t, later, deferrable) == t
            && (later.tab in t.open && Unwritten(Answered(s, id, state, true), events, Key(s.pending[id].origin, later.kind)) ==>
                  VerdictOf(t, later, deferrable) == if Lower(Trim(state)) == "allow" then Allowed else Denied)
  {
    hide Lower, Trim, SiteOf, Run, Decide, Remembered, Standing, Unwritten, Key, VerdictOf, Requested;
    var ask, a := s.pending[id], Answered(s, id, state, true);
    assert PlainKind(ask.kind);
    RememberedStands(s.policy, ask, Lower(Trim(state)) == ALLOW, ask);
    StandingLasts(a, events, ask);
    NeverHeld(Run(a, events), ask, later, deferrable);
    if later.tab in Run(a, events).open && Unwritten(a, events, Key(ask.origin, later.kind)) {
      RememberedDecides(s, id, state, events, later, deferrable);
    }
  }

  lemma NeverHeld(s: State, ask: Ask, later: Ask, deferrable: bool)
    requires Standing(s.policy, ask) && PlainKind(ask.kind) && Trim(ask.origin) != ""
    requires SiteOf(later.origin) == SiteOf(ask.origin) && later.kind == ask.kind
    ensures !VerdictOf(s, later, deferrable).Held? && Requested(s, later, deferrable) == s
  {
    StandingDecides(s, ask, later);
    hide SiteOf, Trim, Standing, Decide;
  }

  // ---- Outcomes -------------------------------------------------------------------------

  // Completed once, and with this answer.
  ghost predicate Outcome(s: State, id: nat, allow: bool) {
    && 1 <= id <= s.issued && id !in s.pending && s.completions[id] == 1
    && id in s.outcomes && s.outcomes[id] == allow
  }

  lemma StepKeepsOutcome(s: State, e: Event, id: nat, allow: bool)
    requires Settled(s) && Outcome(s, id, allow)
    ensures Outcome(Step(s, e), id, allow)
  {
    StepSettles(s, e);
    match e
    case CloseTab(tab) =>
      hide Settled;
      if tab in s.open {
        assert Once(AsksOf(s.pending, tab))[id] == 0;
      }
    case _ => hide Lower, Trim, Write, Decide;
  }

  lemma {:induction false} OutcomeStays(s: State, events: seq<Event>, id: nat, allow: bool)
    requires Settled(s) && Outcome(s, id, allow)
    ensures Outcome(Run(s, events), id, allow)
  {
    if events != [] {
      hide Step, Settled, Outcome;
      var front := events[..|events| - 1];
      OutcomeStays(s, front, id, allow);
      RunSettles(s, front);
      StepKeepsOutcome(Run(s, front), events[|events| - 1], id, allow);
    }
  }

  lemma {:induction false} RunSettles(s: State, events: seq<Event>)
    requires Settled(s)
    ensures Settled(Run(s, events))
  {
    if events != [] {
      hide Step, Settled;
      RunSettles(s, events[..|events| - 1]);
      StepSettles(Run(s, events[..|events| - 1]), events[|events| - 1]);
    }
  }

  // What an event does to a pending ask: its answer, if that is what it is; a denial
  // by its watchdog or its tab's closing; or nothing.
  ghost function Decided(ask: Ask, id: nat, e: Event): Option<bool> {
    match e
    case Answer(answered, state, _) =>
      if answered != id then None
      else if Lower(Trim(state)) == "allow" then Some(true)
      else if Lower(Trim(state)) == "deny" then Some(false)
      else None
    case Expire(expired) => if expired == id then Some(false) else None
    case CloseTab(closed) => if closed == ask.tab then Some(false) else None
    case _ => None
  }

  /** The first to complete an ask decides it, for good: an answer allows or denies it
      as given, its watchdog and its tab's closing deny it, nothing that comes after
      changes that, and nothing else takes it out. */
  lemma FirstWins(s: State, id: nat, e: Event, events: seq<Event>)
    requires Settled(s) && id in s.pending
    ensures match Decided(s.pending[id], id, e)
            case Some(allow) => Outcome(Run(Step(s, e), events), id, allow)
            case None => id in Step(s, e).pending && Step(s, e).pending[id] == s.pending[id]
  {
    FirstDecides(s, id, e);
    StepSettles(s, e);
    hide Step, Run, Settled, Outcome, Lower, Trim;
    if Decided(s.pending[id], id, e).Some? {
      OutcomeStays(Step(s, e), events, id, Decided(s.pending[id], id, e).value);
    }
  }

  lemma FirstDecides(s: State, id: nat, e: Event)
    requires Settled(s) && id in s.pending
    ensures match Decided(s.pending[id], id, e)
            case Some(allow) => Outcome(Step(s, e), id, allow)
            case None => id in Step(s, e).pending && Step(s, e).pending[id] == s.pending[id]
  {
    hide Settled, Outcome, Expired, Closed, Answered, Requested, Write, Lower, Trim;
    match e
    case Answer(answered, state, remember) => AnswerDecides(s, id, answered, state, remember);
    case Expire(expired) => ExpiryDecides(s, id, expired);
    case CloseTab(closed) => CloseDecides(s, id, closed);
    case Request(ask, deferrable) => RequestKeepsPending(s, id, ask, deferrable);
    case _ =>
  }

  lemma ExpiryDecides(s: State, id: nat, expired: nat)
    requires Settled(s) && id in s.pending
    ensures if expired == id then Outcome(Expired(s, expired), id, false)
            else id in Expired(s, expired).pending && Expired(s, expired).pending[id] == s.pending[id]
  {
  }

  lemma RequestKeepsPending(s: State, id: nat, ask: Ask, deferrable: bool)
    requires Settled(s) && id in s.pending
    ensures id in Requested(s, ask, deferrable).pending && Requested(s, ask, deferrable).pending[id] == s.pending[id]
  {
    hide Decide;
  }

  lemma AnswerDecides(s: State, id: nat, answered: nat, state: string, remember: bool)
    requires Settled(s) && id in s.pending
    ensures match Decided(s.pending[id], id, Answer(answered, state, remember))
            case Some(allow) => Outcome(Answered(s, answered, state, remember), id, allow)
            case None => id in Answered(s, answered, state, remember).pending
                         && Answered(s, answered, state, remember).pending[id] == s.pending[id]
  {
    StatesDiffer();
    hide Lower, Trim, Remembered;
  }

  lemma CloseDecides(s: State, id: nat, tab: string)
    requires Settled(s) && id in s.pending
    ensures if tab == s.pending[id].tab then Outcome(Closed(s, tab), id, false)
            else id in Closed(s, tab).pending && Closed(s, tab).pending[id] == s.pending[id]
  {
    if tab in s.open {
      ClosingDenies(s, tab, id);
    }
  }
}
