/** Strings the way the shell's Rust code handles them: trimming of Unicode
    white space, ASCII-only case folding, splitting at the first separator,
    and the line view of a text file. */
module Text {
  import opened Wrappers

  // The code points with the Unicode White_Space property.
  predicate IsSpace(c: char) {
    || '\U{9}' <= c <= '\U{D}'
    || c == ' '
    || c == '\U{85}'
    || c == '\U{A0}'
    || c == '\U{1680}'
    || '\U{2000}' <= c <= '\U{200A}'
    || '\U{2028}' <= c <= '\U{2029}'
    || c == '\U{202F}'
    || c == '\U{205F}'
    || c == '\U{3000}'
  }

  function TrimStart(s: string): string {
    if s != [] && IsSpace(s[0]) then TrimStart(s[1..]) else s
  }

  function TrimEnd(s: string): string {
    if s != [] && IsSpace(s[|s| - 1]) then TrimEnd(s[..|s| - 1]) else s
  }

  function Trim(s: string): string {
    TrimEnd(TrimStart(s))
  }

  function LowerChar(c: char): char {
    if 'A' <= c <= 'Z' then (c as int + 32) as char else c
  }

  // ASCII lower case: two strings are equal up to ASCII case exactly when
  // their Lower forms are equal.
  function Lower(s: string): (r: string)
    ensures |r| == |s|
    ensures forall i :: 0 <= i < |s| ==> r[i] == LowerChar(s[i])
  {
    seq(|s|, i requires 0 <= i < |s| => LowerChar(s[i]))
  }

  function SplitOnce(s: string, sep: char): (r: Option<(string, string)>)
    ensures r.Some? ==> s == r.value.0 + [sep] + r.value.1 && sep !in r.value.0
  {
    if s == [] then None
    else if s[0] == sep then Some(([], s[1..]))
    else match SplitOnce(s[1..], sep)
      case None => None
      case Some(p) => Some(([s[0]] + p.0, p.1))
  }

  function StripCr(line: string): string {
    if line != [] && line[|line| - 1] == '\r' then line[..|line| - 1] else line
  }

  // The lines of a text: split after every newline, a carriage return before
  // one dropped, no empty line after the last newline.
  function Lines(text: string): seq<string>
    decreases |text|
  {
    if text == [] then []
    else
      match SplitOnce(text, '\n')
      case None => [text]
      case Some(p) =>
        assert |p.1| < |text|;
        [StripCr(p.0)] + Lines(p.1)
  }

  function Join(lines: seq<string>): string {
    if lines == [] then []
    else if |lines| == 1 then lines[0]
    else lines[0] + "\n" + Join(lines[1..])
  }

  predicate EndsLine(text: string) {
    text != [] && text[|text| - 1] == '\n'
  }

  // A name that survives trimming and splitting untouched.
  predicate Plain(s: string) {
    && s != []
    && s[0] != '['
    && forall i :: 0 <= i < |s| ==> s[i] != '=' && s[i] != '\n' && !IsSpace(s[i])
  }

  // ---- Case folding ------------------------------------------------------

  lemma LowerIdempotent(s: string)
    ensures Lower(Lower(s)) == Lower(s)
  {
  }

  lemma LowerKeeps(s: string, c: char)
    requires c in s && !('A' <= c <= 'Z')
    ensures c in Lower(s)
  {
    var i :| 0 <= i < |s| && s[i] == c;
    assert Lower(s)[i] == c;
  }

  // Only a lower-case spelling's own letters fold to it, so being plain does
  // not depend on the spelling.
  lemma PlainFolds(s: string)
    requires Plain(Lower(s))
    ensures Plain(s)
  {
    forall i | 0 <= i < |s|
      ensures s[i] != '=' && s[i] != '\n' && !IsSpace(s[i])
    {
      assert Lower(s)[i] == LowerChar(s[i]);
    }
    assert Lower(s)[0] == LowerChar(s[0]);
  }

  // ---- Trimming ----------------------------------------------------------

  lemma {:induction false} TrimStartAppend(s: string, c: char)
    ensures TrimStart(s + [c]) ==
            if TrimStart(s) == [] && IsSpace(c) then [] else TrimStart(s) + [c]
  {
    if s == [] {
      assert s + [c] == [c];
      assert [c][1..] == [];
    } else if IsSpace(s[0]) {
      TrimStartAppend(s[1..], c);
      assert (s + [c])[1..] == s[1..] + [c];
    }
  }

  // Trimming the end first changes nothing.
  lemma {:induction false} TrimOfTrimEnd(s: string)
    ensures Trim(TrimEnd(s)) == Trim(s)
  {
    if s != [] && IsSpace(s[|s| - 1]) {
      var u, c := s[..|s| - 1], s[|s| - 1];
      assert s == u + [c];
      TrimOfTrimEnd(u);
      TrimStartAppend(u, c);
      var t := TrimStart(u);
      if t != [] {
        assert (t + [c])[..|t|] == t;
      }
    }
  }

  lemma {:induction false} TrimEndOfBlank(s: string)
    requires forall i :: 0 <= i < |s| ==> IsSpace(s[i])
    ensures TrimEnd(s) == []
  {
    if s != [] {
      TrimEndOfBlank(s[..|s| - 1]);
    }
  }

  lemma {:induction false} TrimEndAppend(p: string, s: string)
    requires p != [] && !IsSpace(p[|p| - 1])
    ensures TrimEnd(p + s) == p + TrimEnd(s)
  {
    if s == [] {
      assert p + s == p;
    } else {
      assert (p + s)[..|p + s| - 1] == p + s[..|s| - 1];
      assert (p + s)[|p + s| - 1] == s[|s| - 1];
      if IsSpace(s[|s| - 1]) {
        TrimEndAppend(p, s[..|s| - 1]);
      }
    }
  }

  lemma {:induction false} TrimEndPrefix(s: string)
    ensures TrimEnd(s) <= s
    ensures TrimEnd(s) == [] || !IsSpace(TrimEnd(s)[|TrimEnd(s)| - 1])
    ensures forall i :: |TrimEnd(s)| <= i < |s| ==> IsSpace(s[i])
  {
    if s != [] && IsSpace(s[|s| - 1]) {
      TrimEndPrefix(s[..|s| - 1]);
    }
  }

  lemma {:induction false} TrimStartSuffix(s: string)
    ensures |TrimStart(s)| <= |s|
    ensures TrimStart(s) == s[|s| - |TrimStart(s)|..]
    ensures TrimStart(s) == [] || !IsSpace(TrimStart(s)[0])
    ensures forall i :: 0 <= i < |s| - |TrimStart(s)| ==> IsSpace(s[i])
  {
    if s != [] && IsSpace(s[0]) {
      TrimStartSuffix(s[1..]);
      var t := TrimStart(s[1..]);
      assert s[1..][|s[1..]| - |t|..] == s[|s| - |t|..];
      forall i | 0 <= i < |s| - |t|
        ensures IsSpace(s[i])
      {
        if i > 0 {
          assert s[i] == s[1..][i - 1];
        }
      }
    }
  }

  lemma TrimPlain(s: string)
    requires forall i :: 0 <= i < |s| ==> !IsSpace(s[i])
    ensures Trim(s) == s
  {
  }

  // A character that is not white space is never trimmed away.
  lemma TrimKeeps(s: string, c: char)
    requires c in s && !IsSpace(c)
    ensures c in Trim(s)
  {
    TrimStartSuffix(s);
    var t := TrimStart(s);
    var i :| 0 <= i < |s| && s[i] == c;
    assert t[i - (|s| - |t|)] == c;
    TrimEndPrefix(t);
  }

  // ---- Splitting ---------------------------------------------------------

  lemma {:induction false} SplitOnceAt(k: string, v: string, sep: char)
    requires sep !in k
    ensures SplitOnce(k + [sep] + v, sep) == Some((k, v))
  {
    var s := k + [sep] + v;
    if k == [] {
      assert s[1..] == v;
    } else {
      SplitOnceAt(k[1..], v, sep);
      assert s[1..] == k[1..] + [sep] + v;
      assert [k[0]] + k[1..] == k;
    }
  }

  lemma {:induction false} SplitOnceNone(s: string, sep: char)
    ensures SplitOnce(s, sep).None? <==> sep !in s
  {
    if s != [] && s[0] != sep {
      SplitOnceNone(s[1..], sep);
    }
  }
}
