/** What the waiting page receives (desktop-shell/src/waitstate.rs): a hand-written
    JSON object, against readers written from RFC 8259. */
module Payload {
  import opened Wrappers

  datatype Stage = Linux | Starting | Paused | NotFound | NotAnswering | Restarting | Untrusted | Opening

  function Key(stage: Stage): string {
    match stage
    case Linux => "linux"
    case Starting => "starting"
    case Paused => "paused"
    case NotFound => "not-found"
    case NotAnswering => "not-answering"
    case Restarting => "restarting"
    case Untrusted => "untrusted"
    case Opening => "opening"
  }

  predicate Busy(stage: Stage) {
    stage.Linux? || stage.Starting? || stage.Paused? || stage.Restarting? || stage.Opening?
  }

  /** The page tells the stages apart by their keys, and shows motion for all but the
      three that need a person. */
  lemma StagesDiffer(a: Stage, b: Stage)
    ensures Key(a) == Key(b) ==> a == b
    ensures !Busy(a) <==> Key(a) == "not-found" || Key(a) == "not-answering" || Key(a) == "untrusted"
  {
    KeyShape(a);
    KeyShape(b);
  }

  // Length and two letters tell the keys apart.
  lemma KeyShape(a: Stage)
    ensures |Key(a)| == match a {
              case Linux => 5
              case Starting => 8
              case Paused => 6
              case NotFound => 9
              case NotAnswering => 13
              case Restarting => 10
              case Untrusted => 9
              case Opening => 7
            }
    ensures Key(a)[0] == match a {
              case Linux => 'l'
              case Starting => 's'
              case Paused => 'p'
              case NotFound => 'n'
              case NotAnswering => 'n'
              case Restarting => 'r'
              case Untrusted => 'u'
              case Opening => 'o'
            }
  {
  }

  // ---- The writer --------------------------------------------------------------------

  function HexDigit(n: int): char
    requires 0 <= n < 16
  {
    if n < 10 then ('0' as int + n) as char else ('a' as int + (n - 10)) as char
  }

  function EscapeChar(c: char): (e: string)
    ensures |e| >= 1
  {
    if c == '"' then "\\\""
    else if c == '\\' then "\\\\"
    else if c == '\n' then "\\n"
    else if c == '\r' then "\\r"
    else if c == '\t' then "\\t"
    else if c == '\U{2028}' then "\\u2028"
    else if c == '\U{2029}' then "\\u2029"
    else if c == '<' then "\\u003c"
    else if c as int < 0x20 then "\\u00" + [HexDigit(c as int / 16), HexDigit(c as int % 16)]
    else [c]
  }

  function Escaped(s: string): string {
    if s == "" then "" else Escaped(s[..|s| - 1]) + EscapeChar(s[|s| - 1])
  }

  /** The loop over the characters writes a string that reads back as the input,
      all of it, and holds nothing a page's source could trip over. */
  method JsonString(s: string) returns (out: string)
    ensures out == "\"" + Escaped(s) + "\""
    ensures ReadString(out) == Some((s, ""))
    ensures AllClean(out)
  {
    hide Escaped, EscapeChar, ReadChars;
    EscapedEmpty();
    out := "\"";
    for i := 0 to |s|
      invariant out == "\"" + Escaped(s[..i])
    {
      out := out + EscapeChar(s[i]);
      EscapedStep(s[..i], s[i]);
      assert s[..i + 1] == s[..i] + [s[i]];
    }
    assert s[..|s|] == s;
    out := out + "\"";
    StringReads(s, "");
    assert out == "\"" + Escaped(s) + "\"" + "";
    EscapedIsClean(s);
  }

  lemma EscapedEmpty()
    ensures Escaped("") == ""
  {
  }

  lemma EscapedStep(s: string, c: char)
    ensures Escaped(s + [c]) == Escaped(s) + EscapeChar(c)
  {
    assert (s + [c])[..|s|] == s;
  }

  function Decimal(n: nat): (d: string)
    ensures |d| >= 1
  {
    if n < 10 then [('0' as int + n) as char] else Decimal(n / 10) + [('0' as int + n % 10) as char]
  }

  function Object(stage: Stage, elapsed: nat, detail: string): string {
    "{\"stage\":\"" + (Key(stage) + ("\",\"busy\":" + ((if Busy(stage) then "true" else "false") +
      (",\"elapsed\":" + (Decimal(elapsed) + (",\"detail\":" + ("\"" + Escaped(detail) + "\"" + "}")))))))
  }

  // ---- The readers: section 7 of RFC 8259 for strings, section 6 for numbers --------

  function HexValue(c: char): (v: Option<int>)
    ensures v.Some? ==> 0 <= v.value < 16
  {
    if '0' <= c <= '9' then Some(c as int - '0' as int)
    else if 'a' <= c <= 'f' then Some(c as int - 'a' as int + 10)
    else if 'A' <= c <= 'F' then Some(c as int - 'A' as int + 10)
    else None
  }

  // The code unit of \uXXXX at the head of s.
  function Unit(s: string): (u: Option<int>)
    ensures u.Some? ==> |s| >= 6 && 0 <= u.value < 0x10000
  {
    if |s| < 6 || s[0] != '\\' || s[1] != 'u' then None
    else
      var a, b, c, d := HexValue(s[2]), HexValue(s[3]), HexValue(s[4]), HexValue(s[5]);
      if a.Some? && b.Some? && c.Some? && d.Some? then Some(a.value * 4096 + b.value * 256 + c.value * 16 + d.value) else None
  }

  function Short(c: char): Option<char> {
    match c
    case '"' => Some('"')
    case '\\' => Some('\\')
    case '/' => Some('/')
    case 'b' => Some('\U{8}')
    case 'f' => Some('\U{C}')
    case 'n' => Some('\n')
    case 'r' => Some('\r')
    case 't' => Some('\t')
    case _ => None
  }

  // One character of a string, escaped or not, and how much text it took.
  function ReadChar(s: string): (r: Option<(char, nat)>)
    ensures r.Some? ==> 0 < r.value.1 <= |s|
  {
    if s == "" then None
    else if s[0] != '\\' then if s[0] as int < 0x20 || s[0] == '"' then None else Some((s[0], 1))
    else if |s| >= 2 && Short(s[1]).Some? then Some((Short(s[1]).value, 2))
    else
      var u := Unit(s);
      if u.None? then None
      else if u.value < 0xD800 || u.value >= 0xE000 then Some((u.value as char, 6))
      else
        var v := Unit(s[6..]);
        if u.value >= 0xDC00 || v.None? || v.value < 0xDC00 || v.value >= 0xE000 then None
        else Some((((u.value - 0xD800) * 0x400 + (v.value - 0xDC00) + 0x10000) as char, 12))
  }

  // The characters up to the closing quote, and what follows it.
  function ReadChars(s: string): Option<(string, string)>
    decreases |s|
  {
    if s == "" then None
    else if s[0] == '"' then Some(("", s[1..]))
    else
      var c := ReadChar(s);
      if c.None? then None
      else
        var rest := ReadChars(s[c.value.1..]);
        if rest.None? then None else Some(([c.value.0] + rest.value.0, rest.value.1))
  }

  function ReadString(s: string): Option<(string, string)> {
    if s == "" || s[0] != '"' then None else ReadChars(s[1..])
  }

  function ReadDecimal(s: string, sofar: nat): (nat, string) {
    if s == "" || !('0' <= s[0] <= '9') then (sofar, s)
    else ReadDecimal(s[1..], sofar * 10 + (s[0] as int - '0' as int))
  }

  // What follows a text that must be there.
  function After(expected: string, s: string): Option<string> {
    if expected <= s then Some(s[|expected|..]) else None
  }

  function ReadBool(s: string): Option<(bool, string)> {
    if "true" <= s then Some((true, s[4..])) else if "false" <= s then Some((false, s[5..])) else None
  }

  // An object of these four members, in this order.
  function ReadObject(s: string): Option<(string, bool, nat, string)> {
    var r0 := After("{\"stage\":", s);
    if r0.None? then None else
    var stage := ReadString(r0.value);
    if stage.None? then None else
    var r1 := After(",\"busy\":", stage.value.1);
    if r1.None? then None else
    var busy := ReadBool(r1.value);
    if busy.None? then None else
    var r2 := After(",\"elapsed\":", busy.value.1);
    if r2.None? then None else
    var elapsed := ReadDecimal(r2.value, 0);
    var r3 := After(",\"detail\":", elapsed.1);
    if r3.None? then None else
    var detail := ReadString(r3.value);
    if detail.None? || detail.value.1 != "}" then None
    else Some((stage.value.0, busy.value.0, elapsed.0, detail.value.0))
  }

  // ---- Reading back ------------------------------------------------------------------

  lemma HexReads(n: int)
    requires 0 <= n < 16
    ensures HexValue(HexDigit(n)) == Some(n)
  {
  }

  lemma EscapeReads(c: char, tail: string)
    ensures ReadChar(EscapeChar(c) + tail) == Some((c, |EscapeChar(c)|)) && EscapeChar(c)[0] != '"'
  {
    var e := EscapeChar(c);
    var s := e + tail;
    if |e| == 6 {
      assert s[0] == e[0] && s[1] == e[1] && s[2] == e[2] && s[3] == e[3] && s[4] == e[4] && s[5] == e[5];
      if c as int < 0x20 {
        HexReads(c as int / 16);
        HexReads(c as int % 16);
      }
    }
  }

  lemma {:induction false} CharsRead(s: string, tail: string)
    ensures ReadChars(Escaped(s) + tail) ==
            var rest := ReadChars(tail);
            if rest.None? then None else Some((s + rest.value.0, rest.value.1))
  {
    hide ReadChar, EscapeChar, ReadChars;
    if s == "" {
      assert Escaped(s) + tail == tail;
      assert ReadChars(tail).Some? ==> s + ReadChars(tail).value.0 == ReadChars(tail).value.0;
    } else {
      var front, c := s[..|s| - 1], s[|s| - 1];
      var mid := EscapeChar(c) + tail;
      assert Escaped(s) + tail == Escaped(front) + mid;
      CharsRead(front, mid);
      CharReads(c, tail);
      assert ReadChars(tail).Some? ==> front + ([c] + ReadChars(tail).value.0) == s + ReadChars(tail).value.0;
    }
  }

  lemma CharReads(c: char, tail: string)
    ensures ReadChars(EscapeChar(c) + tail) ==
            var rest := ReadChars(tail);
            if rest.None? then None else Some(([c] + rest.value.0, rest.value.1))
  {
    hide ReadChar, EscapeChar;
    var e := EscapeChar(c);
    EscapeReads(c, tail);
    assert (e + tail)[|e|..] == tail && (e + tail)[0] == e[0];
  }

  lemma QuoteEnds(tail: string)
    ensures ReadChars("\"" + tail) == Some(("", tail))
  {
    assert ("\"" + tail)[1..] == tail;
  }

  /** A written string reads back as itself, whatever follows it. */
  lemma StringReads(s: string, tail: string)
    ensures ReadString("\"" + Escaped(s) + "\"" + tail) == Some((s, tail))
  {
    hide Escaped, EscapeChar, ReadChar, ReadChars;
    var quoted := "\"" + tail;
    QuoteEnds(tail);
    CharsRead(s, quoted);
    assert ("\"" + Escaped(s) + "\"" + tail)[1..] == Escaped(s) + quoted;
    assert s + "" == s;
  }

  lemma {:induction false} DecimalReads(n: nat, tail: string)
    ensures ReadDecimal(Decimal(n) + tail, 0) == ReadDecimal(tail, n)
  {
    if n < 10 {
      assert (Decimal(n) + tail)[1..] == tail;
    } else {
      var last := [('0' as int + n % 10) as char];
      assert Decimal(n) + tail == Decimal(n / 10) + (last + tail);
      DecimalReads(n / 10, last + tail);
      assert (last + tail)[1..] == tail;
    }
  }

  lemma AfterReads(expected: string, tail: string)
    ensures After(expected, expected + tail) == Some(tail)
  {
  }

  predicate Plain(s: string) {
    forall i :: 0 <= i < |s| ==> EscapeChar(s[i]) == [s[i]]
  }

  lemma {:induction false} PlainIsItself(s: string)
    requires Plain(s)
    ensures Escaped(s) == s
  {
    hide EscapeChar;
    if s != "" {
      PlainIsItself(s[..|s| - 1]);
      assert s == s[..|s| - 1] + [s[|s| - 1]];
    }
  }

  predicate Letters(s: string) {
    forall i :: 0 <= i < |s| ==> 'a' <= s[i] <= 'z' || s[i] == '-'
  }

  lemma KeyIsLetters(stage: Stage)
    ensures Letters(Key(stage))
  {
    hide EscapeChar;
  }

  lemma LettersArePlain(s: string)
    requires Letters(s)
    ensures Plain(s) && AllClean(s)
  {
  }

  /** The page reads back exactly what it was sent: the stage, whether it is a wait
      in progress, the seconds and the detail, for every detail. */
  lemma ObjectReads(stage: Stage, elapsed: nat, detail: string)
    ensures ReadObject(Object(stage, elapsed, detail)) == Some((Key(stage), Busy(stage), elapsed, detail))
  {
    hide Escaped, Decimal, ReadDecimal, ReadString, After, Key, ReadBool, Busy, Plain, EscapeChar;
    var s6 := "\"" + Escaped(detail) + "\"" + "}";
    var s5 := ",\"detail\":" + s6;
    var s4 := Decimal(elapsed) + s5;
    var s3 := ",\"elapsed\":" + s4;
    var s2 := (if Busy(stage) then "true" else "false") + s3;
    var s1 := ",\"busy\":" + s2;
    var s0 := "\"" + Escaped(Key(stage)) + "\"" + s1;
    KeyIsLetters(stage);
    LettersArePlain(Key(stage));
    PlainIsItself(Key(stage));
    assert Object(stage, elapsed, detail) == "{\"stage\":" + s0;
    AfterReads("{\"stage\":", s0);
    StringReads(Key(stage), s1);
    AfterReads(",\"busy\":", s2);
    BoolReads(Busy(stage), s3);
    AfterReads(",\"elapsed\":", s4);
    DecimalReads(elapsed, s5);
    DecimalStops(elapsed, s5);
    AfterReads(",\"detail\":", s6);
    StringReads(detail, "}");
  }

  lemma BoolReads(b: bool, tail: string)
    ensures ReadBool((if b then "true" else "false") + tail) == Some((b, tail))
  {
    var s := (if b then "true" else "false") + tail;
    assert s[0] == if b then 't' else 'f';
  }

  lemma DecimalStops(n: nat, s: string)
    requires s != "" && s[0] == ','
    ensures ReadDecimal(s, n) == (n, s)
  {
  }

  // ---- Safe to splice ----------------------------------------------------------------

  predicate Clean(c: char) {
    c as int >= 0x20 && c != '<' && c != '\U{2028}' && c != '\U{2029}'
  }

  predicate AllClean(s: string) {
    forall i :: 0 <= i < |s| ==> Clean(s[i])
  }

  lemma {:induction false} EscapedIsClean(s: string)
    ensures AllClean(Escaped(s))
  {
    if s != "" {
      EscapedIsClean(s[..|s| - 1]);
      EscapeIsClean(s[|s| - 1]);
    }
  }

  lemma EscapeIsClean(c: char)
    ensures AllClean(EscapeChar(c))
  {
  }

  lemma {:induction false} DecimalIsClean(n: nat)
    ensures AllClean(Decimal(n))
  {
    if n >= 10 {
      DecimalIsClean(n / 10);
    }
  }

  /** Nothing in a payload ends a line or opens a tag where it is spliced. */
  lemma ObjectIsClean(stage: Stage, elapsed: nat, detail: string)
    ensures AllClean(Object(stage, elapsed, detail))
  {
    hide Escaped, Decimal, Key;
    EscapedIsClean(detail);
    DecimalIsClean(elapsed);
    KeyIsLetters(stage);
    LettersArePlain(Key(stage));
    var s6 := "\"" + Escaped(detail) + "\"" + "}";
    assert AllClean(s6);
    assert AllClean(Decimal(elapsed) + (",\"detail\":" + s6));
  }
}
