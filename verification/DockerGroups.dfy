/** Containers grouped by project for the Docker app's first page
    (internal/apps/docker.go). */
module DockerGroups {
  import opened Wrappers
  import opened Ordering

  datatype Container = Container(id: string, name: string, image: string, state: string, project: string, service: string)

  datatype Operation = Operation(containerId: string, endpoint: string, action: string, state: string)

  datatype Badge = State(state: string) | InProgress(action: string)

  datatype Item = Item(id: string, title: string, subtitle: string, meta: seq<string>, badge: Badge, tone: string, busy: bool)

  // A count of containers in one state.
  datatype Tally = Tally(count: nat, state: string)

  datatype Block = Block(endpoint: string, project: string, title: string, meta: seq<Tally>, items: seq<Item>, busy: bool)

  // What a group is while it is being filled.
  datatype Group = Group(items: seq<Item>, states: map<string, nat>, busy: bool)

  // ---- What one container becomes ----------------------------------------------------

  predicate Runs(op: Operation, c: Container, endpoint: string) {
    op.containerId == c.id && op.endpoint == endpoint && op.state == "running"
  }

  // The action of the first operation still running on a container.
  function Current(c: Container, ops: seq<Operation>, endpoint: string): Option<string> {
    if ops == [] then None
    else if Runs(ops[0], c, endpoint) then Some(ops[0].action)
    else Current(c, ops[1..], endpoint)
  }

  function ItemOf(c: Container, ops: seq<Operation>, endpoint: string): Item {
    var op := Current(c, ops, endpoint);
    Item(c.id, c.name, c.image, if c.service != "" then [c.service] else [],
         if op.Some? then InProgress(op.value) else State(c.state),
         if op.Some? then "info" else if c.state == "running" then "ok" else "",
         op.Some?)
  }

  function Label(c: Container): string {
    if c.state == "created" || c.state == "exited" then "stopped"
    else if c.state == "" then "unknown"
    else c.state
  }

  function Title(project: string): string {
    if project == "" then "Standalone containers" else project
  }

  // ---- What the page must hold --------------------------------------------------------

  ghost predicate Has(cs: seq<Container>, project: string) {
    exists i :: 0 <= i < |cs| && cs[i].project == project
  }

  function Members(cs: seq<Container>, project: string): seq<Container> {
    if cs == [] then []
    else
      var n := |cs| - 1;
      Members(cs[..n], project) + if cs[n].project == project then [cs[n]] else []
  }

  function Items(cs: seq<Container>, ops: seq<Operation>, endpoint: string): (r: seq<Item>)
    ensures |r| == |cs|
  {
    if cs == [] then [] else Items(cs[..|cs| - 1], ops, endpoint) + [ItemOf(cs[|cs| - 1], ops, endpoint)]
  }

  function Labels(cs: seq<Container>): (r: multiset<string>)
    ensures |r| == |cs|
  {
    if cs == [] then multiset{} else Labels(cs[..|cs| - 1]) + multiset{Label(cs[|cs| - 1])}
  }

  ghost predicate AnyBusy(items: seq<Item>) {
    exists i :: 0 <= i < |items| && items[i].busy
  }

  function ProjectRank(project: string): Rank {
    Rank(project == "", project)
  }

  function StateRank(state: string): Rank {
    Rank(state != "running", state)
  }

  function TitleRank(item: Item): Rank {
    Rank(false, item.title)
  }

  function Projects(blocks: seq<Block>): seq<string> {
    seq(|blocks|, i requires 0 <= i < |blocks| => blocks[i].project)
  }

  function States(meta: seq<Tally>): seq<string> {
    seq(|meta|, i requires 0 <= i < |meta| => meta[i].state)
  }

  // Running first, then by name; every state there is, with how many there are.
  ghost predicate Tallied(meta: seq<Tally>, labels: multiset<string>) {
    && Ascending(States(meta), StateRank)
    && (forall s :: s in States(meta) <==> s in labels)
    && (forall i :: 0 <= i < |meta| ==> meta[i].count == labels[meta[i].state])
  }

  // The block of a project with these members.
  ghost predicate BlockOf(b: Block, members: seq<Container>, ops: seq<Operation>, endpoint: string) {
    && b.endpoint == endpoint && b.title == Title(b.project)
    && multiset(b.items) == multiset(Items(members, ops, endpoint))
    && Sorted(b.items, TitleRank)
    && (b.busy <==> AnyBusy(b.items))
    && Tallied(b.meta, Labels(members))
  }

  ghost predicate Page(blocks: seq<Block>, cs: seq<Container>, ops: seq<Operation>, endpoint: string) {
    && Ascending(Projects(blocks), ProjectRank)
    && (forall p :: p in Projects(blocks) <==> Has(cs, p))
    && (forall i :: 0 <= i < |blocks| ==> BlockOf(blocks[i], Members(cs, blocks[i].project), ops, endpoint))
  }

  // ---- Filling the groups --------------------------------------------------------------

  // A group so far holds exactly the members so far.
  ghost predicate Filled(g: Group, members: seq<Container>, ops: seq<Operation>, endpoint: string) {
    && g.items == Items(members, ops, endpoint)
    && (g.busy <==> AnyBusy(g.items))
    && Counted(g.states, Labels(members))
  }

  ghost predicate Counted(states: map<string, nat>, labels: multiset<string>) {
    forall s :: (s in states <==> s in labels) && (s in states ==> states[s] == labels[s])
  }

  ghost predicate AllFilled(groups: map<string, Group>, cs: seq<Container>, ops: seq<Operation>, endpoint: string) {
    && (forall p :: p in groups <==> Has(cs, p))
    && (forall p <- groups :: Filled(groups[p], Members(cs, p), ops, endpoint))
  }

  // The group of a project, made when its first container turns up.
  method Add(c: Container, g: Group, ghost members: seq<Container>, ops: seq<Operation>, endpoint: string) returns (r: Group)
    requires Filled(g, members, ops, endpoint)
    ensures Filled(r, members + [c], ops, endpoint)
  {
    hide Filled, Labels, Items, AnyBusy, Counted;
    var state := c.state;
    if state == "created" || state == "exited" {
      state := "stopped";
    } else if state == "" {
      state := "unknown";
    }
    var states := g.states[state := (if state in g.states then g.states[state] else 0) + 1];
    var tone := if c.state == "running" then "ok" else "";
    var badge, busy := State(c.state), false;
    var i := 0;
    while i < |ops| && !busy
      invariant i <= |ops|
      invariant if busy then Current(c, ops, endpoint).Some? && badge == InProgress(Current(c, ops, endpoint).value) && tone == "info"
                else badge == State(c.state) && tone == (if c.state == "running" then "ok" else "") && Current(c, ops, endpoint) == Current(c, ops[i..], endpoint)
    {
      if Runs(ops[i], c, endpoint) {
        busy, badge, tone := true, InProgress(ops[i].action), "info";
      }
      i := i + 1;
    }
    var item := Item(c.id, c.name, c.image, if c.service != "" then [c.service] else [], badge, tone, busy);
    r := Group(g.items + [item], states, g.busy || busy);
    assert item == ItemOf(c, ops, endpoint);
    AddedIsFilled(c, g, r, members, ops, endpoint);
  }

  lemma AddedIsFilled(c: Container, g: Group, r: Group, members: seq<Container>, ops: seq<Operation>, endpoint: string)
    requires Filled(g, members, ops, endpoint)
    requires r.items == g.items + [ItemOf(c, ops, endpoint)]
    requires r.busy == (g.busy || ItemOf(c, ops, endpoint).busy)
    requires r.states == g.states[Label(c) := (if Label(c) in g.states then g.states[Label(c)] else 0) + 1]
    ensures Filled(r, members + [c], ops, endpoint)
  {
    var n := |g.items|;
    assert (members + [c])[..|members|] == members;
    assert r.items[n] == ItemOf(c, ops, endpoint) && forall i :: 0 <= i < n ==> r.items[i] == g.items[i];
    assert Labels(members + [c]) == Labels(members) + multiset{Label(c)};
  }

  lemma {:induction false} NoMembers(cs: seq<Container>, project: string)
    ensures Members(cs, project) == [] <==> !Has(cs, project)
  {
    if cs != [] {
      var n := |cs| - 1;
      NoMembers(cs[..n], project);
      assert forall i :: 0 <= i < n ==> cs[..n][i] == cs[i];
    }
  }

  lemma EmptyIsFilled(ops: seq<Operation>, endpoint: string)
    ensures Filled(Group([], map[], false), [], ops, endpoint)
  {
  }

  lemma HasOneMore(cs: seq<Container>, c: Container, project: string)
    ensures Has(cs + [c], project) <==> Has(cs, project) || c.project == project
    ensures Members(cs + [c], project) == Members(cs, project) + if c.project == project then [c] else []
  {
    var more := cs + [c];
    assert more[..|cs|] == cs && more[|cs|] == c;
    assert forall i :: 0 <= i < |cs| ==> more[i] == cs[i];
  }

  method Fill(cs: seq<Container>, ops: seq<Operation>, endpoint: string) returns (groups: map<string, Group>)
    ensures AllFilled(groups, cs, ops, endpoint)
  {
    hide Filled, Has, Members;
    groups := map[];
    forall p: string ensures !Has(cs[..0], p) {
      NoMembers(cs[..0], p);
      EmptyMembers(p);
    }
    for i := 0 to |cs|
      invariant AllFilled(groups, cs[..i], ops, endpoint)
    {
      var c := cs[i];
      var before := groups;
      var g := Group([], map[], false);
      if c.project in groups {
        g := groups[c.project];
      } else {
        NoMembers(cs[..i], c.project);
        EmptyIsFilled(ops, endpoint);
      }
      g := Add(c, g, Members(cs[..i], c.project), ops, endpoint);
      groups := groups[c.project := g];
      assert cs[..i + 1] == cs[..i] + [c];
      forall p: string
        ensures p in groups <==> Has(cs[..i + 1], p)
        ensures p in groups ==> Filled(groups[p], Members(cs[..i + 1], p), ops, endpoint)
      {
        HasOneMore(cs[..i], c, p);
        assert p != c.project && p in groups ==> p in before && Members(cs[..i], p) + [] == Members(cs[..i], p);
      }
    }
    assert cs[..|cs|] == cs;
  }

  lemma EmptyMembers(project: string)
    ensures Members([], project) == []
  {
  }

  // ---- Laying them out -----------------------------------------------------------------

  ghost predicate Lists(s: seq<string>, keys: set<string>) {
    && (forall x :: x in s <==> x in keys)
    && (forall i, j :: 0 <= i < j < |s| ==> s[i] != s[j])
  }

  // The keys of a map in whatever order it gives them.
  method Enumerate(keys: set<string>) returns (s: seq<string>)
    ensures Lists(s, keys)
  {
    s := [];
    var left := keys;
    while left != {}
      invariant left <= keys && Lists(s, keys - left)
      decreases |left|
    {
      var k :| k in left;
      s := s + [k];
      left := left - {k};
    }
  }

  // The keys in order, however the map gave them.
  method InOrder(keys: set<string>, rank: string -> Rank) returns (s: seq<string>)
    requires forall a, b :: rank(a) == rank(b) ==> a == b
    ensures Ascending(s, rank)
    ensures forall x :: x in s <==> x in keys
  {
    var listed := Enumerate(keys);
    s := Sort(listed, rank);
    DistinctAfter(listed, s);
    SortedSet(s, rank);
    forall x ensures x in s <==> x in keys {
      assert x in s <==> x in multiset(s);
      assert x in listed <==> x in multiset(listed);
    }
  }

  lemma DistinctAfter(s: seq<string>, t: seq<string>)
    requires multiset(s) == multiset(t)
    requires forall i, j :: 0 <= i < j < |s| ==> s[i] != s[j]
    ensures forall i, j :: 0 <= i < j < |t| ==> t[i] != t[j]
  {
    forall i, j | 0 <= i < j < |t| ensures t[i] != t[j] {
      AtMostOnce(s, t[i]);
      Twice(t, i, j);
    }
  }

  lemma {:induction false} AtMostOnce(s: seq<string>, x: string)
    requires forall i, j :: 0 <= i < j < |s| ==> s[i] != s[j]
    ensures multiset(s)[x] <= 1
  {
    if s != [] {
      var n := |s| - 1;
      AtMostOnce(s[..n], x);
      assert s == s[..n] + [s[n]];
    }
  }

  lemma Twice(s: seq<string>, i: nat, j: nat)
    requires i < j < |s|
    ensures s[i] == s[j] ==> multiset(s)[s[i]] >= 2
  {
    assert s == s[..i] + [s[i]] + s[i + 1..j] + [s[j]] + s[j + 1..];
  }

  method TallyStates(states: map<string, nat>, ghost labels: multiset<string>) returns (meta: seq<Tally>)
    requires Counted(states, labels)
    ensures Tallied(meta, labels)
  {
    var names := InOrder(states.Keys, StateRank);
    meta := [];
    for i := 0 to |names|
      invariant |meta| == i && States(meta) == names[..i]
      invariant forall j :: 0 <= j < i ==> meta[j] == Tally(labels[names[j]], names[j])
    {
      meta := meta + [Tally(states[names[i]], names[i])];
    }
    assert names[..|names|] == names;
  }

  /** The page: one block a project in order, standalone containers last, each block
      holding exactly its project's containers by name, its states counted, busy
      when one of them is. */
  method Groups(cs: seq<Container>, ops: seq<Operation>, endpoint: string) returns (blocks: seq<Block>)
    ensures Page(blocks, cs, ops, endpoint)
  {
    hide Members, Ascending, BlockOf, Filled, Has, Tallied, Counted, Sorted, Labels, Items, Before, Less;
    var groups := Fill(cs, ops, endpoint);
    var projects := InOrder(groups.Keys, ProjectRank);
    blocks := [];
    for i := 0 to |projects|
      invariant |blocks| == i && Projects(blocks) == projects[..i]
      invariant forall j :: 0 <= j < i ==> BlockOf(blocks[j], Members(cs, projects[j]), ops, endpoint)
    {
      var p := projects[i];
      var g := groups[p];
      FilledParts(g, Members(cs, p), ops, endpoint);
      var meta := TallyStates(g.states, Labels(Members(cs, p)));
      var items := Sort(g.items, TitleRank);
      var block := Block(endpoint, p, Title(p), meta, items, g.busy);
      LaidOut(block, g, Members(cs, p), ops, endpoint);
      var before := blocks;
      blocks := blocks + [block];
      assert Projects(blocks) == Projects(before) + [p];
      assert projects[..i + 1] == projects[..i] + [p];
    }
    assert projects[..|projects|] == projects;
  }

  lemma FilledParts(g: Group, members: seq<Container>, ops: seq<Operation>, endpoint: string)
    requires Filled(g, members, ops, endpoint)
    ensures Counted(g.states, Labels(members))
  {
  }

  lemma LaidOut(b: Block, g: Group, members: seq<Container>, ops: seq<Operation>, endpoint: string)
    requires Filled(g, members, ops, endpoint)
    requires b.endpoint == endpoint && b.title == Title(b.project) && b.busy == g.busy
    requires multiset(b.items) == multiset(g.items) && Sorted(b.items, TitleRank)
    requires Tallied(b.meta, Labels(members))
    ensures BlockOf(b, members, ops, endpoint)
  {
    hide Tallied, Sorted;
    SameBusy(b.items, g.items);
  }

  lemma SameBusy(a: seq<Item>, b: seq<Item>)
    requires multiset(a) == multiset(b)
    ensures AnyBusy(a) <==> AnyBusy(b)
  {
    forall i | 0 <= i < |a| ensures a[i] in b { assert a[i] in multiset(a); }
    forall i | 0 <= i < |b| ensures b[i] in a { assert b[i] in multiset(b); }
  }

  // ---- Laws -----------------------------------------------------------------------------

  function AllItems(blocks: seq<Block>): seq<Item> {
    if blocks == [] then [] else AllItems(blocks[..|blocks| - 1]) + blocks[|blocks| - 1].items
  }

  // The items of some projects' members.
  function Gathered(cs: seq<Container>, projects: seq<string>, ops: seq<Operation>, endpoint: string): multiset<Item> {
    if projects == [] then multiset{}
    else
      var n := |projects| - 1;
      Gathered(cs, projects[..n], ops, endpoint) + multiset(Items(Members(cs, projects[n]), ops, endpoint))
  }

  lemma GatheredLast(cs: seq<Container>, projects: seq<string>, ops: seq<Operation>, endpoint: string)
    ensures Gathered(cs, projects, ops, endpoint) ==
            if projects == [] then multiset{}
            else Gathered(cs, projects[..|projects| - 1], ops, endpoint) + multiset(Items(Members(cs, projects[|projects| - 1]), ops, endpoint))
  {
    hide Items, Members;
  }

  lemma {:induction false} GatheredOneMore(cs: seq<Container>, c: Container, projects: seq<string>, ops: seq<Operation>, endpoint: string)
    requires Ascending(projects, ProjectRank)
    ensures Gathered(cs + [c], projects, ops, endpoint) ==
            Gathered(cs, projects, ops, endpoint) + if c.project in projects then multiset{ItemOf(c, ops, endpoint)} else multiset{}
  {
    hide Members, ItemOf, Has, Before, Items, Ascending, Gathered;
    GatheredLast(cs, projects, ops, endpoint);
    GatheredLast(cs + [c], projects, ops, endpoint);
    if projects != [] {
      var n := |projects| - 1;
      var front, p := projects[..n], projects[n];
      ButLast(projects, ProjectRank);
      GatheredOneMore(cs, c, front, ops, endpoint);
      MoreItems(cs, c, p, ops, endpoint);
      LastIsNew(projects);
      assert c.project in projects <==> c.project in front || c.project == p by {
        assert projects == front + [p];
      }
    }
  }

  lemma LastIsNew(projects: seq<string>)
    requires Ascending(projects, ProjectRank) && projects != []
    ensures projects[|projects| - 1] !in projects[..|projects| - 1]
  {
    var n := |projects| - 1;
    forall i | 0 <= i < n ensures projects[..n][i] != projects[n] {
      BeforeIsTotal(ProjectRank(projects[i]), ProjectRank(projects[n]));
    }
  }

  lemma MoreItems(cs: seq<Container>, c: Container, p: string, ops: seq<Operation>, endpoint: string)
    ensures multiset(Items(Members(cs + [c], p), ops, endpoint)) ==
            multiset(Items(Members(cs, p), ops, endpoint)) + if c.project == p then multiset{ItemOf(c, ops, endpoint)} else multiset{}
  {
    hide Members, ItemOf, Has;
    HasOneMore(cs, c, p);
    if c.project == p {
      assert (Members(cs, p) + [c])[..|Members(cs, p)|] == Members(cs, p);
    } else {
      assert Members(cs, p) + [] == Members(cs, p);
    }
  }

  lemma {:induction false} GatheredIsAll(cs: seq<Container>, projects: seq<string>, ops: seq<Operation>, endpoint: string)
    requires Ascending(projects, ProjectRank)
    requires forall i :: 0 <= i < |cs| ==> cs[i].project in projects
    ensures Gathered(cs, projects, ops, endpoint) == multiset(Items(cs, ops, endpoint))
  {
    hide ItemOf, Gathered, Before, Ascending;
    if cs == [] {
      NothingGathered(projects, ops, endpoint);
    } else {
      var n := |cs| - 1;
      GatheredIsAll(cs[..n], projects, ops, endpoint);
      GatheredOneMore(cs[..n], cs[n], projects, ops, endpoint);
      assert cs == cs[..n] + [cs[n]];
    }
  }

  lemma {:induction false} NothingGathered(projects: seq<string>, ops: seq<Operation>, endpoint: string)
    ensures Gathered([], projects, ops, endpoint) == multiset{}
  {
    if projects != [] {
      NothingGathered(projects[..|projects| - 1], ops, endpoint);
    }
  }

  /** Every container is on the page exactly once. */
  lemma EachContainerOnce(blocks: seq<Block>, cs: seq<Container>, ops: seq<Operation>, endpoint: string)
    requires Page(blocks, cs, ops, endpoint)
    ensures multiset(AllItems(blocks)) == multiset(Items(cs, ops, endpoint))
  {
    hide BlockOf, Members;
    BlocksGather(blocks, cs, ops, endpoint);
    forall i | 0 <= i < |cs| ensures cs[i].project in Projects(blocks) {
      assert Has(cs, cs[i].project);
    }
    GatheredIsAll(cs, Projects(blocks), ops, endpoint);
  }

  lemma {:induction false} BlocksGather(blocks: seq<Block>, cs: seq<Container>, ops: seq<Operation>, endpoint: string)
    requires forall i :: 0 <= i < |blocks| ==> BlockOf(blocks[i], Members(cs, blocks[i].project), ops, endpoint)
    ensures multiset(AllItems(blocks)) == Gathered(cs, Projects(blocks), ops, endpoint)
  {
    hide Members, Items, Gathered, BlockOf;
    GatheredLast(cs, Projects(blocks), ops, endpoint);
    if blocks != [] {
      var n := |blocks| - 1;
      BlocksGather(blocks[..n], cs, ops, endpoint);
      assert Projects(blocks)[..n] == Projects(blocks[..n]);
      SameItems(blocks[n], Members(cs, blocks[n].project), ops, endpoint);
    }
  }

  lemma SameItems(b: Block, members: seq<Container>, ops: seq<Operation>, endpoint: string)
    requires BlockOf(b, members, ops, endpoint)
    ensures multiset(b.items) == multiset(Items(members, ops, endpoint))
  {
  }

  function Total(meta: seq<Tally>): nat {
    if meta == [] then 0 else Total(meta[..|meta| - 1]) + meta[|meta| - 1].count
  }

  /** A block's state counts add up to its containers. */
  lemma CountsAddUp(b: Block, members: seq<Container>, ops: seq<Operation>, endpoint: string)
    requires BlockOf(b, members, ops, endpoint)
    ensures Total(b.meta) == |b.items|
  {
    TotalOfTallies(b.meta, Labels(members));
    assert |b.items| == |multiset(b.items)| == |multiset(Items(members, ops, endpoint))| == |members|;
  }

  lemma {:induction false} TotalOfTallies(meta: seq<Tally>, labels: multiset<string>)
    requires Tallied(meta, labels)
    ensures Total(meta) == |labels|
  {
    if meta == [] {
      assert forall s :: s !in labels by {
        forall s ensures s !in labels { assert s in States(meta) <==> s in labels; }
      }
      assert labels == multiset{};
    } else {
      var n := |meta| - 1;
      var last := meta[n];
      var rest := labels[last.state := 0];
      AllButLast(meta, labels);
      TotalOfTallies(meta[..n], rest);
      assert |labels| == |rest| + last.count by {
        var lasts: multiset<string> := multiset{}[last.state := last.count];
        assert labels == rest + lasts;
      }
    }
  }

  lemma AllButLast(meta: seq<Tally>, labels: multiset<string>)
    requires Tallied(meta, labels) && meta != []
    ensures var n := |meta| - 1;
            Tallied(meta[..n], labels[meta[n].state := 0]) && labels[meta[n].state] == meta[n].count
  {
    hide Before;
    var n := |meta| - 1;
    var rest := labels[meta[n].state := 0];
    var front := States(meta[..n]);
    assert forall i :: 0 <= i < n ==> front[i] == States(meta)[i];
    forall s ensures s in front <==> s in rest {
      StateOnlyLast(meta, s);
    }
    forall i | 0 <= i < n ensures meta[..n][i].count == rest[meta[..n][i].state] {
      assert front[i] in front;
      assert front[i] in rest;
    }
  }

  lemma StateOnlyLast(meta: seq<Tally>, s: string)
    requires Ascending(States(meta), StateRank) && meta != []
    ensures s in States(meta[..|meta| - 1]) <==> s in States(meta) && s != meta[|meta| - 1].state
  {
    var n := |meta| - 1;
    var names := States(meta);
    assert names == States(meta[..n]) + [meta[n].state];
    forall i | 0 <= i < n ensures names[i] != names[n] {
      BeforeIsTotal(StateRank(names[i]), StateRank(names[n]));
    }
    assert forall i :: 0 <= i < n ==> States(meta[..n])[i] == names[i];
  }

  /** The page does not depend on the order a map gives its keys: two pages of the
      same containers have the same blocks in the same order, with the same title,
      counts and busy flag, and the same items up to the order of equal names. */
  lemma PageIsForced(a: seq<Block>, b: seq<Block>, cs: seq<Container>, ops: seq<Operation>, endpoint: string)
    requires Page(a, cs, ops, endpoint) && Page(b, cs, ops, endpoint)
    ensures |a| == |b|
    ensures forall i :: 0 <= i < |a| ==> SameBlock(a[i], b[i])
  {
    hide BlockOf, Members;
    OrderIsForced(Projects(a), Projects(b), ProjectRank);
    assert |a| == |Projects(a)| && |b| == |Projects(b)|;
    forall i | 0 <= i < |a| ensures SameBlock(a[i], b[i]) {
      assert Projects(a)[i] == a[i].project && Projects(b)[i] == b[i].project;
      BlockIsForced(a[i], b[i], Members(cs, a[i].project), ops, endpoint);
    }
  }

  ghost predicate SameBlock(a: Block, b: Block) {
    && a.(items := []) == b.(items := [])
    && multiset(a.items) == multiset(b.items)
    && Sorted(a.items, TitleRank) && Sorted(b.items, TitleRank)
  }

  lemma BlockIsForced(a: Block, b: Block, members: seq<Container>, ops: seq<Operation>, endpoint: string)
    requires a.project == b.project && BlockOf(a, members, ops, endpoint) && BlockOf(b, members, ops, endpoint)
    ensures SameBlock(a, b)
  {
    OrderIsForced(States(a.meta), States(b.meta), StateRank);
    assert |a.meta| == |States(a.meta)| == |b.meta|;
    forall i | 0 <= i < |a.meta| ensures a.meta[i] == b.meta[i] {
      assert States(a.meta)[i] == a.meta[i].state && States(b.meta)[i] == b.meta[i].state;
    }
    assert a.meta == b.meta;
    SameBusy(a.items, b.items);
  }

  /** Standalone containers come last and the projects before them by name. */
  lemma StandaloneIsLast(blocks: seq<Block>, cs: seq<Container>, ops: seq<Operation>, endpoint: string, i: nat, j: nat)
    requires Page(blocks, cs, ops, endpoint) && i < j < |blocks|
    ensures blocks[i].project != ""
    ensures blocks[j].project == "" || Less(blocks[i].project, blocks[j].project)
  {
    hide BlockOf, Less, Has;
    assert Projects(blocks)[i] == blocks[i].project && Projects(blocks)[j] == blocks[j].project;
    assert !Less("", "") by { LessIsTotal("", ""); }
  }

  // A running operation on the container, on this connection.
  ghost predicate Working(op: Operation, c: Container, endpoint: string) {
    op.containerId == c.id && op.endpoint == endpoint && op.state == "running"
  }

  ghost predicate FirstWorking(ops: seq<Operation>, i: nat, c: Container, endpoint: string) {
    i < |ops| && Working(ops[i], c, endpoint) && forall j :: 0 <= j < i ==> !Working(ops[j], c, endpoint)
  }

  /** A container is busy exactly when an operation on it is running, and then its badge
      is the first such one's action; otherwise it is the container's own state. */
  lemma {:induction false} BusyExactly(c: Container, ops: seq<Operation>, endpoint: string)
    ensures var item := ItemOf(c, ops, endpoint);
            if item.busy then exists i: nat :: FirstWorking(ops, i, c, endpoint) && item.badge == InProgress(ops[i].action)
            else item.badge == State(c.state) && forall i :: 0 <= i < |ops| ==> !Working(ops[i], c, endpoint)
  {
    if ops != [] {
      var item, rest := ItemOf(c, ops, endpoint), ItemOf(c, ops[1..], endpoint);
      assert forall i :: 1 <= i < |ops| ==> ops[i] == ops[1..][i - 1];
      if Working(ops[0], c, endpoint) {
        assert FirstWorking(ops, 0, c, endpoint);
      } else {
        BusyExactly(c, ops[1..], endpoint);
        if rest.busy {
          var k: nat :| FirstWorking(ops[1..], k, c, endpoint) && rest.badge == InProgress(ops[1..][k].action);
          assert FirstWorking(ops, k + 1, c, endpoint) && ops[k + 1] == ops[1..][k];
        }
      }
    }
  }

  /** States are counted by what they mean: created and exited containers as stopped,
      ones without a state as unknown, all others as what they are. */
  lemma LabelsMean(c: Container)
    ensures Label(c) == "stopped" <==> c.state == "created" || c.state == "exited" || c.state == "stopped"
    ensures Label(c) == "unknown" <==> c.state == "" || c.state == "unknown"
    ensures Label(c) == "running" <==> c.state == "running"
  {
    assert "stopped"[0] == 's' && "unknown"[0] == 'u' && "running"[0] == 'r' && "created"[0] == 'c' && "exited"[0] == 'e';
  }
}
