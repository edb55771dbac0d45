/** The `.wslconfig` editor: the reader and the in-place rewriter of a file
    that belongs to its user (desktop-shell/src/lib.rs). */
module WslConfig {
  import opened Wrappers
  import opened Text

  // (section, key) as the file spells them.
  type EntryKey = (string, string)

  datatype Entry = Entry(section: string, key: string, value: string)

  // One requested change; no value means "remove the key".
  datatype Edit = Edit(section: string, key: string, value: Option<string>)

  // A change together with the section it was decided to land in.
  datatype Plan = Plan(edit: Edit, home: string)

  datatype Line = Header(name: string) | Pair(key: string, value: string) | Other

  /** The settings the editor owns: lower-case key to its documented section. */
  datatype Table = Table(home: map<string, string>)

  const WSL2: string := "wsl2"
  const EXPERIMENTAL: string := "experimental"

  ghost predicate ValidTable(t: Table) {
    forall k :: k in t.home ==>
      && Plain(k) && Lower(k) == k
      && Plain(t.home[k]) && Lower(t.home[k]) == t.home[k]
      && (t.home[k] == WSL2 || t.home[k] == EXPERIMENTAL)
  }

  predicate Owned(t: Table, key: string) {
    Lower(key) in t.home
  }

  predicate InOwned(t: Table, section: string) {
    Lower(section) in t.home.Values
  }

  function Documented(t: Table, key: string): string {
    if Owned(t, key) then t.home[Lower(key)] else ""
  }

  predicate Same(a: string, b: string) {
    Lower(a) == Lower(b)
  }

  // ---- One line ------------------------------------------------------------

  predicate IsHeader(trimmed: string) {
    |trimmed| >= 2 && trimmed[0] == '[' && trimmed[|trimmed| - 1] == ']'
  }

  function HeaderName(trimmed: string): string
    requires IsHeader(trimmed)
  {
    Trim(trimmed[1..|trimmed| - 1])
  }

  function SplitKv(trimmed: string): Option<(string, string)> {
    match SplitOnce(trimmed, '=')
    case None => None
    case Some(p) => Some((Trim(p.0), Trim(p.1)))
  }

  function Classify(line: string): Line {
    var s := Trim(line);
    if IsHeader(s) then Header(HeaderName(s))
    else match SplitKv(s)
      case Some(p) => Pair(p.0, p.1)
      case None => Other
  }

  predicate Blank(line: string) {
    Trim(line) == []
  }

  function Format(key: string, value: string): string {
    key + "=" + value
  }

  // ---- Reading ---------------------------------------------------------------

  function NextSection(section: string, line: string): string {
    var c := Classify(line);
    if c.Header? then c.name else section
  }

  function SectionAfter(section: string, lines: seq<string>): string
    decreases lines
  {
    if lines == [] then section else SectionAfter(NextSection(section, lines[0]), lines[1..])
  }

  function EntryOf(t: Table, section: string, line: string): seq<Entry> {
    var c := Classify(line);
    if c.Pair? && InOwned(t, section) && Owned(t, c.key) then [Entry(section, c.key, c.value)] else []
  }

  // Every owned assignment of the file, in file order.
  function Entries(t: Table, section: string, lines: seq<string>): seq<Entry>
    decreases lines
  {
    if lines == [] then []
    else
      var s := NextSection(section, lines[0]);
      EntryOf(t, s, lines[0]) + Entries(t, s, lines[1..])
  }

  // A later assignment overwrites an earlier one.
  function AsMap(es: seq<Entry>): map<EntryKey, string> {
    if es == [] then map[]
    else
      var e := es[|es| - 1];
      AsMap(es[..|es| - 1])[(e.section, e.key) := e.value]
  }

  function Read(t: Table, lines: seq<string>): map<EntryKey, string> {
    AsMap(Entries(t, "", lines))
  }

  // ---- Where an edit lands ---------------------------------------------------

  function FirstCopy(order: seq<EntryKey>, key: string): Option<EntryKey> {
    if order == [] then None
    else if Same(order[0].1, key) then Some(order[0])
    else FirstCopy(order[1..], key)
  }

  function FirstCopyIn(order: seq<EntryKey>, key: string, section: string): Option<EntryKey> {
    if order == [] then None
    else if Same(order[0].1, key) && Same(order[0].0, section) then Some(order[0])
    else FirstCopyIn(order[1..], key, section)
  }

  // The copy both the editor and the reader of the settings window settle on:
  // the documented section's, else the first one there is. `order` is the
  // order in which the map of present keys is walked.
  function Copy(t: Table, order: seq<EntryKey>, key: string): Option<EntryKey> {
    match FirstCopyIn(order, key, Documented(t, key))
    case Some(c) => Some(c)
    case None => FirstCopy(order, key)
  }

  function Target(t: Table, order: seq<EntryKey>, key: string): string {
    match Copy(t, order, key)
    case Some(c) => c.0
    case None => Documented(t, key)
  }

  // What the settings window shows for a key: the section it was found under,
  // or its documented one, and the value if the file sets it.
  function Shown(t: Table, order: seq<EntryKey>, values: map<EntryKey, string>, key: string): (string, Option<string>)
    requires forall k :: k in order ==> k in values
  {
    match Copy(t, order, key)
    case Some(c) =>
      CopyIsListed(t, order, key);
      (c.0, Some(values[c]))
    case None => (Documented(t, key), None)
  }

  lemma {:induction false} FirstCopyIsListed(order: seq<EntryKey>, key: string, section: string)
    ensures match FirstCopy(order, key)
            case Some(c) => c in order && Same(c.1, key)
            case None => forall k :: k in order ==> !Same(k.1, key)
    ensures match FirstCopyIn(order, key, section)
            case Some(c) => c in order && Same(c.1, key) && Same(c.0, section)
            case None => forall k :: k in order ==> !(Same(k.1, key) && Same(k.0, section))
  {
    if order != [] {
      FirstCopyIsListed(order[1..], key, section);
    }
  }

  lemma CopyIsListed(t: Table, order: seq<EntryKey>, key: string)
    ensures match Copy(t, order, key)
            case Some(c) =>
              && c in order && Same(c.1, key)
              && (Same(c.0, Documented(t, key))
                  || forall k :: k in order ==> !(Same(k.1, key) && Same(k.0, Documented(t, key))))
            case None => forall k :: k in order ==> !Same(k.1, key)
  {
    FirstCopyIsListed(order, key, Documented(t, key));
  }

  function Planned(t: Table, order: seq<EntryKey>, edits: seq<Edit>): (r: seq<Plan>)
    ensures |r| == |edits|
    ensures forall i :: 0 <= i < |r| ==> r[i].edit == edits[i] && r[i].home == Target(t, order, edits[i].key)
  {
    seq(|edits|, i requires 0 <= i < |edits| => Plan(edits[i], Target(t, order, edits[i].key)))
  }

  // ---- Replacing and dropping lines ------------------------------------------

  predicate Hits(p: Plan, section: string, key: string) {
    Same(p.edit.key, key) && Same(p.home, section)
  }

  function Find(plan: seq<Plan>, section: string, key: string): (r: Option<nat>)
    ensures r.Some? ==> r.value < |plan| && Hits(plan[r.value], section, key)
    ensures r.Some? ==> forall i :: 0 <= i < r.value ==> !Hits(plan[i], section, key)
    ensures r.None? ==> forall i :: 0 <= i < |plan| ==> !Hits(plan[i], section, key)
  {
    if plan == [] then None
    else if Hits(plan[0], section, key) then Some(0)
    else
      match Find(plan[1..], section, key)
      case None =>
        assert forall i :: 1 <= i < |plan| ==> plan[i] == plan[1..][i - 1];
        None
      case Some(i) =>
        assert forall j :: 1 <= j < |plan| ==> plan[j] == plan[1..][j - 1];
        Some(i + 1)
  }

  // The edit a line is subject to, if any.
  function EditAt(t: Table, section: string, line: string, plan: seq<Plan>): (r: Option<nat>)
    ensures r.Some? ==> r.value < |plan|
  {
    var c := Classify(line);
    if c.Pair? && InOwned(t, section) then Find(plan, section, c.key) else None
  }

  function RewriteLine(t: Table, section: string, line: string, plan: seq<Plan>): seq<string> {
    match EditAt(t, section, line, plan)
    case None => [line]
    case Some(i) =>
      match plan[i].edit.value
      case Some(v) => [Format(plan[i].edit.key, v)]
      case None => []
  }

  function Rewrite(t: Table, section: string, lines: seq<string>, plan: seq<Plan>): seq<string>
    decreases lines
  {
    if lines == [] then []
    else
      var s := NextSection(section, lines[0]);
      RewriteLine(t, s, lines[0], plan) + Rewrite(t, s, lines[1..], plan)
  }

  function MarkAt(t: Table, section: string, line: string, plan: seq<Plan>): set<EntryKey> {
    match EditAt(t, section, line, plan)
    case None => {}
    case Some(i) => {(plan[i].edit.section, plan[i].edit.key)}
  }

  // The edits that found a line to act on.
  function Marks(t: Table, section: string, lines: seq<string>, plan: seq<Plan>): set<EntryKey>
    decreases lines
  {
    if lines == [] then {}
    else
      var s := NextSection(section, lines[0]);
      MarkAt(t, s, lines[0], plan) + Marks(t, s, lines[1..], plan)
  }

  // ---- Appending what is missing ---------------------------------------------

  predicate IsMissing(p: Plan, seen: set<EntryKey>) {
    (p.edit.section, p.edit.key) !in seen && p.edit.key != "" && p.edit.value.Some?
  }

  function Missing(plan: seq<Plan>, seen: set<EntryKey>): (r: seq<Plan>)
    ensures forall p :: p in r <==> p in plan && IsMissing(p, seen)
  {
    if plan == [] then []
    else
      var n := |plan| - 1;
      assert plan == plan[..n] + [plan[n]];
      Missing(plan[..n], seen) + if IsMissing(plan[n], seen) then [plan[n]] else []
  }

  // The distinct homes of the missing edits, in order of first appearance.
  function Homes(ends: seq<Plan>): (r: seq<string>)
    ensures forall s :: s in r <==> exists i :: 0 <= i < |ends| && ends[i].home == s
    ensures forall i, j :: 0 <= i < j < |r| ==> r[i] != r[j]
  {
    if ends == [] then []
    else
      var n := |ends| - 1;
      var r := Homes(ends[..n]);
      assert forall i :: 0 <= i < n ==> ends[i] == ends[..n][i];
      if ends[n].home in r then r else r + [ends[n].home]
  }

  // The lines to append under one home.
  function Group(ends: seq<Plan>, home: string): seq<string>
    requires forall i :: 0 <= i < |ends| ==> ends[i].edit.value.Some?
  {
    if ends == [] then []
    else
      (if ends[0].home == home then [Format(ends[0].edit.key, ends[0].edit.value.value)] else [])
      + Group(ends[1..], home)
  }

  predicate HeaderOf(line: string, section: string) {
    Classify(line).Header? && Same(Classify(line).name, section)
  }

  function FirstHeader(lines: seq<string>, section: string): (r: Option<nat>)
    ensures r.Some? ==> r.value < |lines| && HeaderOf(lines[r.value], section)
    ensures r.Some? ==> forall i :: 0 <= i < r.value ==> !HeaderOf(lines[i], section)
    ensures r.None? ==> forall i :: 0 <= i < |lines| ==> !HeaderOf(lines[i], section)
  {
    if lines == [] then None
    else if HeaderOf(lines[0], section) then Some(0)
    else
      match FirstHeader(lines[1..], section)
      case None =>
        assert forall i :: 1 <= i < |lines| ==> lines[i] == lines[1..][i - 1];
        None
      case Some(i) =>
        assert forall j :: 1 <= j < |lines| ==> lines[j] == lines[1..][j - 1];
        Some(i + 1)
  }

  // One past the last non-blank line of the block that runs from i to the
  // next header; `at` is the best position so far.
  function BlockEnd(lines: seq<string>, i: nat, at: nat): (r: nat)
    requires at <= i <= |lines|
    ensures at <= r <= |lines|
    ensures forall j :: i <= j < r ==> !Classify(lines[j]).Header?
    decreases |lines| - i
  {
    if i == |lines| || Classify(lines[i]).Header? then at
    else BlockEnd(lines, i + 1, if Blank(lines[i]) then at else i + 1)
  }

  // What a file without the section gets appended before the keys.
  function Opening(lines: seq<string>, home: string): seq<string> {
    (if lines != [] && !Blank(lines[|lines| - 1]) then [""] else []) + ["[" + home + "]"]
  }

  function AppendGroup(lines: seq<string>, home: string, group: seq<string>): seq<string> {
    match FirstHeader(lines, home)
    case Some(start) =>
      var at := BlockEnd(lines, start + 1, start + 1);
      lines[..at] + group + lines[at..]
    case None => lines + Opening(lines, home) + group
  }

  function AppendAll(lines: seq<string>, ends: seq<Plan>, homes: seq<string>): seq<string>
    requires forall i :: 0 <= i < |ends| ==> ends[i].edit.value.Some?
  {
    if homes == [] then lines
    else
      var n := |homes| - 1;
      AppendGroup(AppendAll(lines, ends, homes[..n]), homes[n], Group(ends, homes[n]))
  }

  // ---- The whole rewrite -----------------------------------------------------

  function Ends(t: Table, lines: seq<string>, plan: seq<Plan>): (r: seq<Plan>)
    ensures forall i :: 0 <= i < |r| ==> r[i].edit.value.Some?
  {
    var r := Missing(plan, Marks(t, "", lines, plan));
    assert forall i :: 0 <= i < |r| ==> r[i] in r;
    r
  }

  function Apply(t: Table, lines: seq<string>, plan: seq<Plan>): seq<string> {
    var ends := Ends(t, lines, plan);
    AppendAll(Rewrite(t, "", lines, plan), ends, Homes(ends))
  }
}
