/** The base64 writer that screenshots travel through (desktop-shell/src/b64.rs),
    against a reader written from section 4 of RFC 4648. */
module Base64 {
  import opened Wrappers

  type Byte = b: int | 0 <= b < 256

  // The writer's table: capitals, small letters, digits, plus and slash.
  function Symbol(n: int): char
    requires 0 <= n < 64
  {
    if n < 26 then ('A' as int + n) as char
    else if n < 52 then ('a' as int + (n - 26)) as char
    else if n < 62 then ('0' as int + (n - 52)) as char
    else if n == 62 then '+'
    else '/'
  }

  // ---- The reader: the alphabet of table 1, groups of four, padding last ------------

  function Value(c: char): (v: Option<int>)
    ensures v.Some? ==> 0 <= v.value < 64
  {
    if 'A' <= c <= 'Z' then Some(c as int - 'A' as int)
    else if 'a' <= c <= 'z' then Some(c as int - 'a' as int + 26)
    else if '0' <= c <= '9' then Some(c as int - '0' as int + 52)
    else if c == '+' then Some(62)
    else if c == '/' then Some(63)
    else None
  }

  function Three(p: int, q: int, r: int, s: int): seq<Byte>
    requires 0 <= p < 64 && 0 <= q < 64 && 0 <= r < 64 && 0 <= s < 64
  {
    [p * 4 + q / 16, q % 16 * 16 + r / 4, r % 4 * 64 + s]
  }

  // The bytes of one group of four symbols. Only the last group of a text may be
  // padded, and the bits that padding cuts off must be zero.
  function Quantum(a: char, b: char, c: char, d: char, isLast: bool): Option<seq<Byte>> {
    var p, q, r, s := Value(a), Value(b), Value(c), Value(d);
    if p.None? || q.None? then None
    else if r.Some? && s.Some? then Some(Three(p.value, q.value, r.value, s.value))
    else if !isLast || d != '=' then None
    else if r.Some? then if r.value % 4 == 0 then Some(Three(p.value, q.value, r.value, 0)[..2]) else None
    else if c == '=' && q.value % 16 == 0 then Some(Three(p.value, q.value, 0, 0)[..1])
    else None
  }

  function Decode(s: string): Option<seq<Byte>> {
    if s == "" then Some([])
    else if |s| < 4 then None
    else
      var front, rest := Quantum(s[0], s[1], s[2], s[3], |s| == 4), Decode(s[4..]);
      if front.Some? && rest.Some? then Some(front.value + rest.value) else None
  }

  // ---- The writer --------------------------------------------------------------------

  // Byte i of a chunk, zero where the chunk is short.
  function ByteAt(chunk: seq<Byte>, i: nat): Byte {
    if i < |chunk| then chunk[i] else 0
  }

  // A chunk of at most three bytes as 24 bits.
  function Word(chunk: seq<Byte>): (n: int)
    ensures 0 <= n < 64 * 64 * 64 * 64
  {
    ByteAt(chunk, 0) * 65536 + ByteAt(chunk, 1) * 256 + ByteAt(chunk, 2)
  }

  // What one chunk is written as.
  function Group(chunk: seq<Byte>): (g: string)
    ensures |g| == 4
  {
    var n := Word(chunk);
    [Symbol(n / 262144 % 64), Symbol(n / 4096 % 64),
     if |chunk| > 1 then Symbol(n / 64 % 64) else '=',
     if |chunk| > 2 then Symbol(n % 64) else '=']
  }

  function First(bytes: seq<Byte>): (n: nat)
    ensures n <= |bytes| && n <= 3
  {
    if |bytes| <= 3 then |bytes| else 3
  }

  function Encoded(bytes: seq<Byte>): (s: string)
    ensures |s| == (|bytes| + 2) / 3 * 4
  {
    if bytes == [] then "" else Group(bytes[..First(bytes)]) + Encoded(bytes[First(bytes)..])
  }

  lemma {:induction false} EncodedAppend(front: seq<Byte>, back: seq<Byte>)
    requires |front| % 3 == 0 && 1 <= |back| <= 3
    ensures Encoded(front + back) == Encoded(front) + Group(back)
  {
    hide Group;
    if front == [] {
      assert front + back == back && back[..|back|] == back && back[|back|..] == [];
    } else {
      EncodedAppend(front[3..], back);
      assert (front + back)[3..] == front[3..] + back;
      assert (front + back)[..3] == front[..3];
    }
  }

  lemma EncodedEmpty()
    ensures Encoded([]) == ""
  {
  }

  /** The loop over chunks of three writes what the reader takes back. */
  method Encode(bytes: seq<Byte>) returns (out: string)
    ensures out == Encoded(bytes)
    ensures Decode(out) == Some(bytes)
  {
    hide Word, ByteAt, Symbol, Decode, Encoded;
    EncodedEmpty();
    out := "";
    var i := 0;
    while i < |bytes|
      invariant 0 <= i <= |bytes| && (i % 3 == 0 || i == |bytes|)
      invariant out == Encoded(bytes[..i])
    {
      var end := if i + 3 <= |bytes| then i + 3 else |bytes|;
      var chunk := bytes[i..end];
      var n := Word(chunk);
      var before := out;
      out := out + [Symbol(n / 262144 % 64)];
      out := out + [Symbol(n / 4096 % 64)];
      out := out + [if |chunk| > 1 then Symbol(n / 64 % 64) else '='];
      out := out + [if |chunk| > 2 then Symbol(n % 64) else '='];
      assert out == before + Group(chunk);
      EncodedAppend(bytes[..i], chunk);
      assert bytes[..end] == bytes[..i] + chunk;
      i := end;
    }
    assert bytes[..i] == bytes;
    ReadsBack(bytes);
  }

  // ---- Laws --------------------------------------------------------------------------

  lemma SymbolHasValue(n: int)
    requires 0 <= n < 64
    ensures Value(Symbol(n)) == Some(n) && Symbol(n) != '='
  {
  }

  lemma ValueHasSymbol(c: char)
    requires Value(c).Some?
    ensures Symbol(Value(c).value) == c
  {
  }

  lemma PadHasNoValue()
    ensures Value('=') == None
  {
  }

  // Four sextets, high first, are the digits of their word.
  lemma Digits(n: int, p: int, q: int, r: int, s: int)
    requires 0 <= p < 64 && 0 <= q < 64 && 0 <= r < 64 && 0 <= s < 64
    requires n == p * 262144 + q * 4096 + r * 64 + s
    ensures n / 262144 % 64 == p && n / 4096 % 64 == q && n / 64 % 64 == r && n % 64 == s
  {
    assert n / 64 == p * 4096 + q * 64 + r;
    assert n / 4096 == p * 64 + q;
    assert n / 262144 == p;
  }

  // The sextets of a chunk are its bits, so three bytes come back from them; what
  // padding cuts off is zero.
  lemma SextetsOfChunk(chunk: seq<Byte>)
    ensures var n, a, b, c := Word(chunk), ByteAt(chunk, 0), ByteAt(chunk, 1), ByteAt(chunk, 2);
            n / 262144 % 64 == a / 4 && n / 4096 % 64 == a % 4 * 16 + b / 16 && n / 64 % 64 == b % 16 * 4 + c / 64 && n % 64 == c % 64
  {
    hide ByteAt;
    var a, b, c := ByteAt(chunk, 0), ByteAt(chunk, 1), ByteAt(chunk, 2);
    Digits(Word(chunk), a / 4, a % 4 * 16 + b / 16, b % 16 * 4 + c / 64, c % 64);
  }

  lemma ThreeOfBytes(a: Byte, b: Byte, c: Byte)
    ensures Three(a / 4, a % 4 * 16 + b / 16, b % 16 * 4 + c / 64, c % 64) == [a, b, c]
  {
    assert (a % 4 * 16 + b / 16) % 16 == b / 16 && (a % 4 * 16 + b / 16) / 16 == a % 4;
    assert (b % 16 * 4 + c / 64) % 4 == c / 64 && (b % 16 * 4 + c / 64) / 4 == b % 16;
  }

  lemma SextetsOfThree(p: int, q: int, r: int, s: int, bytes: seq<Byte>)
    requires 0 <= p < 64 && 0 <= q < 64 && 0 <= r < 64 && 0 <= s < 64
    requires var t := Three(p, q, r, s); ByteAt(bytes, 0) == t[0] && ByteAt(bytes, 1) == t[1] && ByteAt(bytes, 2) == t[2]
    ensures var n := Word(bytes); n / 262144 % 64 == p && n / 4096 % 64 == q && n / 64 % 64 == r && n % 64 == s
  {
    hide ByteAt;
    Digits(Word(bytes), p, q, r, s);
  }

  // A group in terms of the bytes of its chunk.
  lemma GroupIs(chunk: seq<Byte>)
    ensures var a, b, c := ByteAt(chunk, 0), ByteAt(chunk, 1), ByteAt(chunk, 2);
            Group(chunk) == [Symbol(a / 4), Symbol(a % 4 * 16 + b / 16),
                             if |chunk| > 1 then Symbol(b % 16 * 4 + c / 64) else '=',
                             if |chunk| > 2 then Symbol(c % 64) else '=']
  {
    hide Symbol, Word, ByteAt;
    SextetsOfChunk(chunk);
  }

  lemma ThreeReads(a: Byte, b: Byte, c: Byte, isLast: bool)
    ensures Quantum(Symbol(a / 4), Symbol(a % 4 * 16 + b / 16), Symbol(b % 16 * 4 + c / 64), Symbol(c % 64), isLast) == Some([a, b, c])
  {
    hide Symbol, Value, Three;
    SymbolHasValue(a / 4);
    SymbolHasValue(a % 4 * 16 + b / 16);
    SymbolHasValue(b % 16 * 4 + c / 64);
    SymbolHasValue(c % 64);
    ThreeOfBytes(a, b, c);
  }

  lemma TwoRead(a: Byte, b: Byte)
    ensures Quantum(Symbol(a / 4), Symbol(a % 4 * 16 + b / 16), Symbol(b % 16 * 4), '=', true) == Some([a, b])
  {
    hide Symbol, Value, Three;
    SymbolHasValue(a / 4);
    SymbolHasValue(a % 4 * 16 + b / 16);
    SymbolHasValue(b % 16 * 4);
    PadHasNoValue();
    ThreeOfBytes(a, b, 0);
    assert [a, b, 0][..2] == [a, b];
  }

  lemma OneReads(a: Byte)
    ensures Quantum(Symbol(a / 4), Symbol(a % 4 * 16), '=', '=', true) == Some([a])
  {
    hide Symbol, Value, Three;
    SymbolHasValue(a / 4);
    SymbolHasValue(a % 4 * 16);
    PadHasNoValue();
    ThreeOfBytes(a, 0, 0);
    assert [a, 0, 0][..1] == [a];
  }

  lemma GroupReads(chunk: seq<Byte>, isLast: bool)
    requires 1 <= |chunk| <= 3 && (|chunk| == 3 || isLast)
    ensures var g := Group(chunk); Quantum(g[0], g[1], g[2], g[3], isLast) == Some(chunk)
  {
    hide Symbol, Group, Quantum;
    GroupIs(chunk);
    if |chunk| == 3 {
      ThreeReads(chunk[0], chunk[1], chunk[2], isLast);
      assert chunk == [chunk[0], chunk[1], chunk[2]];
    } else if |chunk| == 2 {
      TwoRead(chunk[0], chunk[1]);
      assert chunk == [chunk[0], chunk[1]];
    } else {
      OneReads(chunk[0]);
      assert chunk == [chunk[0]];
    }
  }

  /** Every byte sequence is read back. */
  lemma {:induction false} ReadsBack(bytes: seq<Byte>)
    ensures Decode(Encoded(bytes)) == Some(bytes)
  {
    hide Group, Quantum;
    if bytes != [] {
      var end := First(bytes);
      GroupReads(bytes[..end], |bytes| <= 3);
      ReadsBack(bytes[end..]);
      assert bytes == bytes[..end] + bytes[end..];
      assert Encoded(bytes)[4..] == Encoded(bytes[end..]);
      assert Encoded(bytes)[..4] == Group(bytes[..end]);
    }
  }

  lemma QuantumWrites(a: char, b: char, c: char, d: char, isLast: bool)
    requires Quantum(a, b, c, d, isLast).Some?
    ensures var bytes := Quantum(a, b, c, d, isLast).value;
            && 1 <= |bytes| <= 3 && (isLast || |bytes| == 3)
            && Group(bytes) == [a, b, c, d]
  {
    hide Symbol, Value, Word;
    var bytes := Quantum(a, b, c, d, isLast).value;
    var p, q, r, s := Value(a), Value(b), Value(c), Value(d);
    ValueHasSymbol(a);
    ValueHasSymbol(b);
    if r.Some? { ValueHasSymbol(c); }
    if s.Some? { ValueHasSymbol(d); }
    SextetsOfThree(p.value, q.value, if r.Some? then r.value else 0, if r.Some? && s.Some? then s.value else 0, bytes);
  }

  /** What the reader accepts is exactly what the writer writes. */
  lemma {:induction false} OnlyItsOwn(s: string, bytes: seq<Byte>)
    ensures Decode(s) == Some(bytes) <==> s == Encoded(bytes)
  {
    hide Group, Quantum;
    if s == Encoded(bytes) {
      ReadsBack(bytes);
    }
    if Decode(s) == Some(bytes) && s != "" {
      QuantumWrites(s[0], s[1], s[2], s[3], |s| == 4);
      var front := Quantum(s[0], s[1], s[2], s[3], |s| == 4).value;
      var rest := Decode(s[4..]).value;
      OnlyItsOwn(s[4..], rest);
      assert s == [s[0], s[1], s[2], s[3]] + s[4..];
      assert |s| == 4 ==> rest == [];
      assert bytes == front + rest && bytes[..First(bytes)] == front && bytes[First(bytes)..] == rest;
    }
  }

  /** Padding is only in the last two places, and says how many bytes are short. */
  lemma {:induction false} PaddingIsLast(bytes: seq<Byte>, i: nat)
    requires i < |Encoded(bytes)|
    ensures Encoded(bytes)[i] == '=' <==> i >= |Encoded(bytes)| - (2 - (|bytes| + 2) % 3)
  {
    hide Group;
    var end := First(bytes);
    if i < 4 {
      GroupPads(bytes[..end], i);
    } else {
      PaddingIsLast(bytes[end..], i - 4);
    }
  }

  lemma GroupPads(chunk: seq<Byte>, i: nat)
    requires 1 <= |chunk| <= 3 && i < 4
    ensures Group(chunk)[i] == '=' <==> i > |chunk|
  {
    hide Symbol, Value, Word;
    var n := Word(chunk);
    SymbolHasValue(n / 262144 % 64);
    SymbolHasValue(n / 4096 % 64);
    SymbolHasValue(n / 64 % 64);
    SymbolHasValue(n % 64);
  }
}
