/** Names in order, a few of them held to the front or the back, and sorting by
    such a rank. */
module Ordering {

  // Text order, character by character.
  predicate Less(a: string, b: string) {
    if b == "" then false
    else if a == "" then true
    else if a[0] != b[0] then a[0] < b[0]
    else Less(a[1..], b[1..])
  }

  lemma {:induction false} LessIsTotal(a: string, b: string)
    ensures !(Less(a, b) && Less(b, a))
    ensures !Less(a, b) && !Less(b, a) <==> a == b
  {
    if a != "" && b != "" && a[0] == b[0] {
      LessIsTotal(a[1..], b[1..]);
      assert a == [a[0]] + a[1..] && b == [b[0]] + b[1..];
    }
  }

  lemma {:induction false} LessIsTransitive(a: string, b: string, c: string)
    requires Less(a, b) && Less(b, c)
    ensures Less(a, c)
  {
    if a != "" && a[0] == b[0] && b[0] == c[0] {
      LessIsTransitive(a[1..], b[1..], c[1..]);
    }
  }

  // Late ones come after all others.
  datatype Rank = Rank(late: bool, name: string)

  predicate Before(a: Rank, b: Rank) {
    if a.late != b.late then b.late else Less(a.name, b.name)
  }

  lemma BeforeIsTotal(a: Rank, b: Rank)
    ensures !(Before(a, b) && Before(b, a))
    ensures !Before(a, b) && !Before(b, a) <==> a == b
  {
    LessIsTotal(a.name, b.name);
  }

  lemma BeforeIsTransitive(a: Rank, b: Rank, c: Rank)
    requires !Before(b, a) && !Before(c, b)
    ensures !Before(c, a)
    ensures Before(a, b) || Before(b, c) ==> Before(a, c)
  {
    LessIsTotal(a.name, b.name);
    LessIsTotal(b.name, c.name);
    LessIsTotal(a.name, c.name);
    if Less(a.name, b.name) && Less(b.name, c.name) {
      LessIsTransitive(a.name, b.name, c.name);
    }
  }

  ghost predicate Sorted<T>(s: seq<T>, rank: T -> Rank) {
    forall i, j :: 0 <= i < j < |s| ==> !Before(rank(s[j]), rank(s[i]))
  }

  /** Sorting by rank: the same elements, none before an earlier one. */
  method Sort<T>(s: seq<T>, rank: T -> Rank) returns (r: seq<T>)
    ensures multiset(r) == multiset(s)
    ensures Sorted(r, rank)
  {
    r := [];
    for i := 0 to |s|
      invariant multiset(r) == multiset(s[..i])
      invariant Sorted(r, rank)
    {
      r := Insert(s[i], r, rank);
      assert s[..i + 1] == s[..i] + [s[i]];
    }
    assert s[..|s|] == s;
  }

  method Insert<T>(x: T, s: seq<T>, rank: T -> Rank) returns (r: seq<T>)
    requires Sorted(s, rank)
    ensures multiset(r) == multiset(s) + multiset{x}
    ensures Sorted(r, rank)
  {
    hide Before;
    var k := 0;
    while k < |s| && !Before(rank(x), rank(s[k]))
      invariant k <= |s|
      invariant forall j :: 0 <= j < k ==> !Before(rank(x), rank(s[j]))
    {
      k := k + 1;
    }
    r := s[..k] + [x] + s[k..];
    assert s == s[..k] + s[k..];
    InsertedIsSorted(s, k, x, rank);
  }

  lemma InsertedIsSorted<T>(s: seq<T>, k: nat, x: T, rank: T -> Rank)
    requires Sorted(s, rank) && k <= |s|
    requires forall j :: 0 <= j < k ==> !Before(rank(x), rank(s[j]))
    requires k < |s| ==> Before(rank(x), rank(s[k]))
    ensures Sorted(s[..k] + [x] + s[k..], rank)
  {
    hide Before;
    forall j | k <= j < |s| ensures !Before(rank(s[j]), rank(x)) {
      BeforeIsTotal(rank(x), rank(s[k]));
      if k < j { BeforeIsTransitive(rank(x), rank(s[k]), rank(s[j])); }
    }
    var r := s[..k] + [x] + s[k..];
    forall i, j | 0 <= i < j < |r| ensures !Before(rank(r[j]), rank(r[i])) {
      assert r[i] == if i < k then s[i] else if i == k then x else s[i - 1];
      assert r[j] == if j < k then s[j] else if j == k then x else s[j - 1];
    }
  }

  // Distinct ranks, in order.
  ghost predicate Ascending<T>(s: seq<T>, rank: T -> Rank) {
    forall i, j :: 0 <= i < j < |s| ==> Before(rank(s[i]), rank(s[j]))
  }

  lemma ButLast<T>(s: seq<T>, rank: T -> Rank)
    requires Ascending(s, rank) && s != []
    ensures Ascending(s[..|s| - 1], rank)
  {
  }

  lemma {:induction false} SortedSet<T>(s: seq<T>, rank: T -> Rank)
    requires Sorted(s, rank)
    requires forall i, j :: 0 <= i < j < |s| ==> rank(s[i]) != rank(s[j])
    ensures Ascending(s, rank)
  {
    hide Before;
    forall i, j | 0 <= i < j < |s| ensures Before(rank(s[i]), rank(s[j])) {
      BeforeIsTotal(rank(s[i]), rank(s[j]));
    }
  }

  /** There is only one way to list a set in order. */
  lemma {:induction false} OrderIsForced<T>(s: seq<T>, t: seq<T>, rank: T -> Rank)
    requires Ascending(s, rank) && Ascending(t, rank)
    requires forall x :: x in s <==> x in t
    ensures s == t
  {
    hide Before;
    if s != [] {
      assert s[0] in t;
    }
    if t != [] {
      assert t[0] in s;
      HeadsAgree(s, t, rank);
      forall x ensures x in s[1..] <==> x in t[1..] {
        InTail(s, x, rank);
        InTail(t, x, rank);
      }
      OrderIsForced(s[1..], t[1..], rank);
    }
  }

  lemma HeadsAgree<T>(s: seq<T>, t: seq<T>, rank: T -> Rank)
    requires Ascending(s, rank) && Ascending(t, rank) && s != [] && t != []
    requires s[0] in t && t[0] in s
    ensures s[0] == t[0]
  {
    BeforeIsTotal(rank(s[0]), rank(t[0]));
  }

  lemma InTail<T>(s: seq<T>, x: T, rank: T -> Rank)
    requires Ascending(s, rank) && s != []
    ensures x in s[1..] <==> x in s && x != s[0]
  {
    if x in s[1..] {
      BeforeIsTotal(rank(s[0]), rank(x));
    }
  }
}
