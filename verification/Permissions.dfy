/** The site-permission policy: what a site may do, by site and kind
    (desktop-shell/src/permissions.rs). */
module Permissions {
  import opened Wrappers
  import opened Text

  const ANY_SITE := "*"

  // States a policy entry holds.
  const ALLOW := "allow"
  const DENY := "deny"
  const ASK := "ask"
  const DEFAULT := "default"

  type PolicyMap = map<string, string>

  datatype Decision = Site(state: string) | Kind(state: string) | NoPolicy

  // How far the first "://" reaches, zero when there is none.
  function SchemeEnd(s: string): (r: nat)
    ensures r <= |s|
  {
    if |s| < 3 then 0
    else if s[..3] == "://" then 3
    else
      var rest := SchemeEnd(s[1..]);
      if rest == 0 then 0 else rest + 1
  }

  predicate EndsAuthority(c: char) {
    c == '/' || c == '?' || c == '#'
  }

  function AuthorityEnd(s: string): (r: nat)
    ensures r <= |s|
    ensures forall i :: 0 <= i < r ==> !EndsAuthority(s[i])
    ensures r < |s| ==> EndsAuthority(s[r])
  {
    if s == "" || EndsAuthority(s[0]) then 0 else 1 + AuthorityEnd(s[1..])
  }

  function SiteOf(origin: string): string {
    var trimmed := Trim(origin);
    var start := SchemeEnd(trimmed);
    Lower(trimmed[..start + AuthorityEnd(trimmed[start..])])
  }

  function KindOf(kind: string): string {
    Lower(Trim(kind))
  }

  function Key(origin: string, kind: string): string {
    SiteOf(origin) + "|" + KindOf(kind)
  }

  // The entry a write is about: no origin, or a blank one, is every site's.
  function EntryKey(origin: Option<string>, kind: string): string {
    var o := if origin.Some? then Trim(origin.value) else "";
    if o == "" then Key(ANY_SITE, kind) else Key(o, kind)
  }

  function Decide(policy: PolicyMap, origin: string, kind: string): Decision {
    var k := KindOf(kind);
    if Key(origin, k) in policy then Site(policy[Key(origin, k)])
    else if Key(ANY_SITE, k) in policy then Kind(policy[Key(ANY_SITE, k)])
    else NoPolicy
  }

  predicate IsState(state: string) {
    state == ALLOW || state == DENY || state == ASK
  }

  // The policy after a write, or why the write is refused.
  function Write(policy: PolicyMap, origin: Option<string>, kind: string, state: string): Result<PolicyMap, string> {
    var k, word := KindOf(kind), Lower(Trim(state));
    if k == "" then Err("a permission kind is required")
    else if IsState(word) then Ok(policy[EntryKey(origin, k) := word])
    else if word == DEFAULT then Ok(policy - {EntryKey(origin, k)})
    else Err("not a permission state")
  }

  /** The policy as the shell keeps it, written in place. */
  class Policy {
    var entries: PolicyMap

    constructor ()
      ensures entries == map[]
    {
      entries := map[];
    }

    method Set(origin: Option<string>, kind: string, state: string) returns (refused: Option<string>)
      modifies this
      ensures var written := Write(old(entries), origin, kind, state);
              match written
              case Ok(p) => entries == p && refused == None
              case Err(why) => entries == old(entries) && refused == Some(why)
    {
      hide Lower, Trim, EntryKey;
      var k := KindOf(kind);
      if k == "" {
        return Some("a permission kind is required");
      }
      var entry := EntryKey(origin, k);
      var word := Lower(Trim(state));
      if IsState(word) {
        entries := entries[entry := word];
      } else if word == DEFAULT {
        entries := entries - {entry};
      } else {
        return Some("not a permission state");
      }
      return None;
    }
  }

  // ---- Keys -------------------------------------------------------------------

  // A kind as the platform names them: already trimmed and folded, no separator.
  predicate PlainKind(kind: string) {
    kind != "" && KindOf(kind) == kind && '|' !in kind
  }

  lemma SameKeySameParts(a: string, k: string, b: string, l: string)
    requires '|' !in k && '|' !in l && a + "|" + k == b + "|" + l
    ensures a == b && k == l
  {
    var x, y := a + "|" + k, b + "|" + l;
    assert x[|a|] == '|' && y[|b|] == '|';
    assert forall i :: |a| < i < |x| ==> x[i] == k[i - |a| - 1];
    assert forall i :: |b| < i < |y| ==> y[i] == l[i - |b| - 1];
    assert |a| == |b|;
    assert a == x[..|a|] == y[..|b|] == b;
    assert k == x[|a| + 1..] == y[|b| + 1..] == l;
  }

  /** One entry a site and kind: keys of plain kinds never run together. */
  lemma KeyIsSiteAndKind(o: string, k: string, p: string, l: string)
    requires PlainKind(k) && PlainKind(l)
    ensures Key(o, k) == Key(p, l) <==> SiteOf(o) == SiteOf(p) && k == l
  {
    hide SiteOf, KindOf;
    if Key(o, k) == Key(p, l) {
      SameKeySameParts(SiteOf(o), k, SiteOf(p), l);
    }
  }

  lemma {:induction false} TrimIsTrimmed(s: string)
    ensures Trim(Trim(s)) == Trim(s)
  {
    var t := TrimStart(s);
    TrimStartSuffix(s);
    TrimEndPrefix(t);
    var r := TrimEnd(t);
    if r != [] {
      assert r[0] == t[0];
    }
    assert TrimStart(r) == r;
    assert TrimEnd(r) == r;
  }

  lemma SiteIgnoresMargins(origin: string)
    ensures SiteOf(Trim(origin)) == SiteOf(origin)
  {
    TrimIsTrimmed(origin);
  }

  // ---- The decision table --------------------------------------------------------

  // The site a write is about.
  function Written(origin: Option<string>): string {
    if origin.None? || Trim(origin.value) == "" then ANY_SITE else origin.value
  }

  lemma EntryIsWritten(origin: Option<string>, kind: string)
    ensures EntryKey(origin, kind) == Key(Written(origin), kind)
  {
    if origin.Some? {
      SiteIgnoresMargins(origin.value);
    }
  }

  /** What a write decides: the requests of its own site and kind, and when it
      is every site's entry also those of sites with no entry of their own, in
      the state written or as if there were no such entry; nothing else. */
  lemma WriteDecides(policy: PolicyMap, origin: Option<string>, kind: string, state: string, o: string, k: string)
    requires PlainKind(kind) && PlainKind(k) && Write(policy, origin, kind, state).Ok?
    ensures var after := Write(policy, origin, kind, state).value;
            var word, site := Lower(Trim(state)), SiteOf(Written(origin));
            && (k != kind ==> Decide(after, o, k) == Decide(policy, o, k))
            && (k == kind && SiteOf(o) == site && word != DEFAULT ==> Decide(after, o, k) == Site(word))
            && (k == kind && SiteOf(o) == site && word == DEFAULT ==>
                  Decide(after, o, k) ==
                  if site != SiteOf(ANY_SITE) && Key(ANY_SITE, k) in policy then Kind(policy[Key(ANY_SITE, k)]) else NoPolicy)
            && (k == kind && SiteOf(o) != site && (Key(o, k) in policy || site != SiteOf(ANY_SITE)) ==>
                  Decide(after, o, k) == Decide(policy, o, k))
            && (k == kind && SiteOf(o) != site && Key(o, k) !in policy && site == SiteOf(ANY_SITE) ==>
                  Decide(after, o, k) == if word == DEFAULT then NoPolicy else Kind(word))
  {
    EntryIsWritten(origin, kind);
    KeyIsSiteAndKind(o, k, Written(origin), kind);
    KeyIsSiteAndKind(ANY_SITE, k, Written(origin), kind);
    KeyIsSiteAndKind(o, k, ANY_SITE, k);
    hide Key, SiteOf, EntryKey, Written, Lower, Trim;
  }

  // ---- Sites ----------------------------------------------------------------------

  lemma {:induction false} SchemeEndAt(scheme: string, rest: string)
    requires ':' !in scheme
    ensures SchemeEnd(scheme + "://" + rest) == |scheme| + 3
  {
    var s := scheme + "://" + rest;
    if scheme == "" {
      assert s[..3] == "://";
    } else {
      SchemeEndAt(scheme[1..], rest);
      assert s[1..] == scheme[1..] + "://" + rest;
      assert s[..3][0] == scheme[0];
    }
  }

  lemma AuthorityEndAt(host: string, tail: string)
    requires forall i :: 0 <= i < |host| ==> !EndsAuthority(host[i])
    requires tail == "" || EndsAuthority(tail[0])
    ensures AuthorityEnd(host + tail) == |host|
  {
    var s := host + tail;
    assert forall i :: 0 <= i < |host| ==> s[i] == host[i];
    assert tail != "" ==> s[|host|] == tail[0];
  }

  /** One answer covers the site: whatever path, query or fragment follows, and
      however it is spelled and padded, a page's site is its scheme and host. */
  lemma PathNeverMatters(scheme: string, host: string, tail: string)
    requires scheme != "" && host != "" && ':' !in scheme
    requires forall i :: 0 <= i < |scheme| ==> !IsSpace(scheme[i])
    requires forall i :: 0 <= i < |host| ==> !IsSpace(host[i]) && !EndsAuthority(host[i])
    requires tail == "" || EndsAuthority(tail[0])
    ensures SiteOf(scheme + "://" + host + tail) == Lower(scheme + "://" + host)
  {
    var base := scheme + "://" + host;
    var origin := base + tail;
    assert origin[0] == scheme[0] && TrimStart(origin) == origin;
    assert base[|base| - 1] == host[|host| - 1];
    TrimEndAppend(base, tail);
    TrimEndPrefix(tail);
    var rest := TrimEnd(tail);
    assert tail != "" ==> !IsSpace(tail[0]);
    assert rest == "" || rest[0] == tail[0];
    var trimmed := Trim(origin);
    assert trimmed == scheme + "://" + (host + rest);
    SchemeEndAt(scheme, host + rest);
    assert trimmed[|scheme| + 3..] == host + rest;
    AuthorityEndAt(host, rest);
    assert trimmed[..|scheme| + 3 + |host|] == base;
  }
}
