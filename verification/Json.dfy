/** The ASCII JSON text that `json.dumps` writes for strings, integers and absent values
    (section 7 of RFC 8259), together with a reader for it.  The reader is the reference
    against which the writer is proved: whatever follows a written value, reading gives the
    value and the untouched remainder back.  That makes every written field self-delimiting. */
module Json {

  datatype Option<+T> = None | Some(value: T)

  const QUOTE := '\"'
  const BACKSLASH := '\\'

  /* ---------- hexadecimal ---------- */

  function HexDigit(d: nat): char
    requires d < 16
  {
    if d < 10 then ('0' as int + d) as char else ('a' as int + (d - 10)) as char
  }

  function HexValue(c: char): Option<nat> {
    if '0' <= c <= '9' then Some(c as int - '0' as int)
    else if 'a' <= c <= 'f' then Some(c as int - 'a' as int + 10)
    else None
  }

  /** Four lower-case digits, the `{0:04x}` of the escape table. */
  function Hex4(n: nat): string
    requires n < 0x1_0000
  {
    [HexDigit(n / 0x1000), HexDigit(n / 0x100 % 16), HexDigit(n / 16 % 16), HexDigit(n % 16)]
  }

  function ReadHex4(s: string): Option<nat> {
    if |s| < 4 then None
    else
      match (HexValue(s[0]), HexValue(s[1]), HexValue(s[2]), HexValue(s[3]))
      case (Some(a), Some(b), Some(c), Some(d)) => Some(((a * 16 + b) * 16 + c) * 16 + d)
      case _ => None
  }

  lemma HexRoundTrip(d: nat)
    requires d < 16
    ensures HexValue(HexDigit(d)) == Some(d)
  {
  }

  lemma Hex4RoundTrip(n: nat, rest: string)
    requires n < 0x1_0000
    ensures ReadHex4(Hex4(n) + rest) == Some(n)
  {
    HexRoundTrip(n / 0x1000);
    HexRoundTrip(n / 0x100 % 16);
    HexRoundTrip(n / 16 % 16);
    HexRoundTrip(n % 16);
    assert (n / 16) / 16 == n / 0x100;
    assert (n / 0x100) / 16 == n / 0x1000;
  }

  /* ---------- characters ---------- */

  function HighSurrogate(n: nat): nat
    requires 0x1_0000 <= n < 0x11_0000
  {
    0xd800 + (n - 0x1_0000) / 0x400
  }

  function LowSurrogate(n: nat): nat
    requires 0x1_0000 <= n < 0x11_0000
  {
    0xdc00 + (n - 0x1_0000) % 0x400
  }

  function Escape(n: nat): string
    requires n < 0x1_0000
  {
    "\\u" + Hex4(n)
  }

  /** One character of a string literal, with `ensure_ascii` on. */
  function WriteChar(c: char): string {
    if c == QUOTE then "\\\""
    else if c == BACKSLASH then "\\\\"
    else if c == '\n' then "\\n"
    else if c == '\r' then "\\r"
    else if c == '\t' then "\\t"
    else if c as int == 8 then "\\b"
    else if c as int == 12 then "\\f"
    else if ' ' <= c <= '~' then [c]
    else if c as int < 0x1_0000 then Escape(c as int)
    else Escape(HighSurrogate(c as int)) + Escape(LowSurrogate(c as int))
  }

  predicate IsScalar(n: nat) {
    n < 0xd800 || 0xe000 <= n < 0x11_0000
  }

  /** Reads one character of a string literal: the character and how much text it took. */
  function ReadChar(s: string): Option<(char, nat)> {
    if |s| == 0 || s[0] == QUOTE then None
    else if s[0] != BACKSLASH then Some((s[0], 1))
    else if |s| == 1 then None
    else if s[1] == QUOTE then Some((QUOTE, 2))
    else if s[1] == BACKSLASH then Some((BACKSLASH, 2))
    else if s[1] == 'n' then Some(('\n', 2))
    else if s[1] == 'r' then Some(('\r', 2))
    else if s[1] == 't' then Some(('\t', 2))
    else if s[1] == 'b' then Some((8 as char, 2))
    else if s[1] == 'f' then Some((12 as char, 2))
    else if s[1] != 'u' then None
    else
      match ReadHex4(s[2..])
      case None => None
      case Some(n) =>
        if IsScalar(n) then Some((n as char, 6))
        else if n < 0xdc00 && |s| >= 8 && s[6] == BACKSLASH && s[7] == 'u' then
          match ReadHex4(s[8..])
          case None => None
          case Some(m) =>
            if 0xdc00 <= m < 0xe000
            then Some(((0x1_0000 + (n - 0xd800) * 0x400 + (m - 0xdc00)) as char, 12))
            else None
        else None
  }

  lemma EscapeReads(n: nat, rest: string)
    requires n < 0x1_0000
    ensures |Escape(n)| == 6 && Escape(n)[0] == BACKSLASH && Escape(n)[1] == 'u'
    ensures ReadHex4((Escape(n) + rest)[2..]) == Some(n)
  {
    assert (Escape(n) + rest)[2..] == Hex4(n) + rest;
    Hex4RoundTrip(n, rest);
  }

  lemma CharRoundTrip(c: char, rest: string)
    ensures ReadChar(WriteChar(c) + rest) == Some((c, |WriteChar(c)|))
    ensures |WriteChar(c)| > 0 && (WriteChar(c) + rest)[|WriteChar(c)|..] == rest
  {
    hide Escape, ReadHex4;
    var n := c as int;
    if n < 0x1_0000 {
      EscapeReads(n, rest);
    } else {
      SurrogatesRoundTrip(c, rest);
    }
  }

  lemma SurrogatesRoundTrip(c: char, rest: string)
    requires c as int >= 0x1_0000
    ensures ReadChar(WriteChar(c) + rest) == Some((c, 12)) && |WriteChar(c)| == 12
  {
    hide Escape, ReadHex4;
    var n := c as int;
    var hi, lo := HighSurrogate(n), LowSurrogate(n);
    var tail := Escape(lo) + rest;
    var s := WriteChar(c) + rest;
    assert s == Escape(hi) + tail;
    EscapeReads(hi, tail);
    EscapeReads(lo, rest);
    assert s[8..] == tail[2..];
    assert s[6] == tail[0] && s[7] == tail[1];
    SurrogatesRecombine(n);
  }

  lemma SurrogatesRecombine(n: nat)
    requires 0x1_0000 <= n < 0x11_0000
    ensures 0xd800 <= HighSurrogate(n) < 0xdc00 <= LowSurrogate(n) < 0xe000
    ensures 0x1_0000 + (HighSurrogate(n) - 0xd800) * 0x400 + (LowSurrogate(n) - 0xdc00) == n
  {
  }

  /* ---------- strings ---------- */

  function WriteChars(s: string): string {
    if s == [] then [] else WriteChar(s[0]) + WriteChars(s[1..])
  }

  function WriteString(s: string): string {
    [QUOTE] + WriteChars(s) + [QUOTE]
  }

  /** Reads string characters up to the closing quote; the remainder starts after it. */
  function ReadChars(s: string): (r: Option<(string, string)>)
    decreases |s|
  {
    if |s| > 0 && s[0] == QUOTE then Some(([], s[1..]))
    else
      match ReadChar(s)
      case None => None
      case Some((c, used)) =>
        if used == 0 || used > |s| then None
        else
          match ReadChars(s[used..])
          case None => None
          case Some((cs, rest)) => Some(([c] + cs, rest))
  }

  lemma {:induction false} CharsRoundTrip(s: string, rest: string)
    ensures ReadChars(WriteChars(s) + [QUOTE] + rest) == Some((s, rest))
  {
    var text := WriteChars(s) + [QUOTE] + rest;
    if s == [] {
      assert text == [QUOTE] + rest;
      assert text[1..] == rest;
    } else {
      var tail := WriteChars(s[1..]) + [QUOTE] + rest;
      assert text == WriteChar(s[0]) + tail;
      CharRoundTrip(s[0], tail);
      WriteCharNeverQuote(s[0]);
      CharsRoundTrip(s[1..], rest);
      assert [s[0]] + s[1..] == s;
    }
  }

  lemma WriteCharNeverQuote(c: char)
    ensures |WriteChar(c)| > 0 && WriteChar(c)[0] != QUOTE
  {
  }

  /** What comes after a written string determines nothing about it, and conversely. */
  lemma StringCancel(a: string, x: string, b: string, y: string)
    requires WriteString(a) + x == WriteString(b) + y
    ensures a == b && x == y
  {
    hide ReadChars, WriteChars;
    assert (WriteString(a) + x)[1..] == WriteChars(a) + [QUOTE] + x;
    assert (WriteString(b) + y)[1..] == WriteChars(b) + [QUOTE] + y;
    CharsRoundTrip(a, x);
    CharsRoundTrip(b, y);
  }

  /* ---------- absent values ---------- */

  function WriteOptional(s: Option<string>): string {
    match s
    case None => "null"
    case Some(v) => WriteString(v)
  }

  lemma OptionalCancel(a: Option<string>, x: string, b: Option<string>, y: string)
    requires WriteOptional(a) + x == WriteOptional(b) + y
    ensures a == b && x == y
  {
    assert a.Some? ==> (WriteOptional(a) + x)[0] == QUOTE;
    assert b.Some? ==> (WriteOptional(b) + y)[0] == QUOTE;
    assert a.None? ==> (WriteOptional(a) + x)[0] == 'n';
    assert b.None? ==> (WriteOptional(b) + y)[0] == 'n';
    if a.Some? {
      StringCancel(a.value, x, b.value, y);
    } else {
      PrefixCancel("null", x, y);
    }
  }

  lemma PrefixCancel(p: string, x: string, y: string)
    requires p + x == p + y
    ensures x == y
  {
    assert (p + x)[|p|..] == x;
    assert (p + y)[|p|..] == y;
  }

  /* ---------- integers ---------- */

  predicate IsDigit(c: char) { '0' <= c <= '9' }

  function WriteNat(n: nat): string {
    if n < 10 then [HexDigit(n)] else WriteNat(n / 10) + [HexDigit(n % 10)]
  }

  function WriteInt(n: int): string {
    if n < 0 then "-" + WriteNat(-n) else WriteNat(n)
  }

  function ReadNat(s: string): int {
    if s == [] then 0
    else ReadNat(s[..|s| - 1]) * 10 + (s[|s| - 1] as int - '0' as int)
  }

  lemma {:induction false} NatRoundTrip(n: nat)
    ensures |WriteNat(n)| > 0 && forall c :: c in WriteNat(n) ==> IsDigit(c)
    ensures ReadNat(WriteNat(n)) == n
  {
    if n >= 10 {
      NatRoundTrip(n / 10);
      var s := WriteNat(n);
      assert s[..|s| - 1] == WriteNat(n / 10);
    } else {
      assert WriteNat(n)[..0] == [];
    }
  }

  function DigitCount(s: string): nat {
    if s == [] || !IsDigit(s[0]) then 0 else 1 + DigitCount(s[1..])
  }

  lemma {:induction false} DigitCountStops(a: string, x: string)
    requires forall c :: c in a ==> IsDigit(c)
    requires |x| > 0 && !IsDigit(x[0])
    ensures DigitCount(a + x) == |a|
  {
    if a == [] {
      assert a + x == x;
    } else {
      assert a[0] in a;
      assert (a + x)[1..] == a[1..] + x;
      DigitCountStops(a[1..], x);
    }
  }

  /** A number ends where the digits end, so it can be told apart from text that does not
      start with a digit. */
  lemma DigitsCancel(a: string, x: string, b: string, y: string)
    requires forall c :: c in a ==> IsDigit(c)
    requires forall c :: c in b ==> IsDigit(c)
    requires |x| > 0 && !IsDigit(x[0]) && |y| > 0 && !IsDigit(y[0])
    requires a + x == b + y
    ensures a == b && x == y
  {
    DigitCountStops(a, x);
    DigitCountStops(b, y);
    assert a == (a + x)[..|a|] == (b + y)[..|b|] == b;
    PrefixCancel(a, x, y);
  }

  lemma IntCancel(m: int, x: string, n: int, y: string)
    requires |x| > 0 && !IsDigit(x[0]) && |y| > 0 && !IsDigit(y[0])
    requires WriteInt(m) + x == WriteInt(n) + y
    ensures m == n && x == y
  {
    hide WriteNat, ReadNat;
    var am, an := if m < 0 then -m else m, if n < 0 then -n else n;
    NatRoundTrip(am);
    NatRoundTrip(an);
    assert WriteNat(am)[0] in WriteNat(am) && WriteNat(an)[0] in WriteNat(an);
    assert (WriteInt(m) + x)[0] == (if m < 0 then '-' else WriteNat(am)[0]);
    assert (WriteInt(n) + y)[0] == (if n < 0 then '-' else WriteNat(an)[0]);
    assert m < 0 <==> n < 0;
    if m < 0 {
      assert WriteInt(m) + x == "-" + (WriteNat(am) + x);
      assert WriteInt(n) + y == "-" + (WriteNat(an) + y);
      PrefixCancel("-", WriteNat(am) + x, WriteNat(an) + y);
    }
    DigitsCancel(WriteNat(am), x, WriteNat(an), y);
  }

  /* ---------- what the text never contains ---------- */

  predicate Printable(s: string) {
    forall c :: c in s ==> ' ' <= c <= '~'
  }

  lemma Hex4Printable(n: nat)
    requires n < 0x1_0000
    ensures Printable(Escape(n))
  {
  }

  /** Written strings hold printable ASCII only; in particular no line break. */
  lemma {:induction false} CharsPrintable(s: string)
    ensures Printable(WriteChars(s))
  {
    if s != [] {
      CharsPrintable(s[1..]);
      var n := s[0] as int;
      if n < 0x1_0000 {
        Hex4Printable(n);
      } else {
        Hex4Printable(HighSurrogate(n));
        Hex4Printable(LowSurrogate(n));
      }
    }
  }

  /** What each character becomes: seven have an escape of their own, the other printable ASCII
      characters stand for themselves, and the rest are written as four lower-case hexadecimal
      digits, or twice that beyond the first 65536. */
  lemma CharText(c: char)
    ensures var n := c as int;
            WriteChar(c) ==
            if c == '\"' then "\\\""
            else if c == '\\' then "\\\\"
            else if n == 8 then "\\b"
            else if n == 9 then "\\t"
            else if n == 10 then "\\n"
            else if n == 12 then "\\f"
            else if n == 13 then "\\r"
            else if 32 <= n < 127 then [c]
            else if n < 0x1_0000 then Escape(n)
            else Escape(0xd800 + (n - 0x1_0000) / 1024) + Escape(0xdc00 + (n - 0x1_0000) % 1024)
  {
  }

  lemma EscapeText(n: nat)
    requires n < 0x1_0000
    ensures |Escape(n)| == 6 && Escape(n)[0] == '\\' && Escape(n)[1] == 'u'
    ensures forall i :: 2 <= i < 6 ==> '0' <= Escape(n)[i] <= '9' || 'a' <= Escape(n)[i] <= 'f'
    ensures ReadHex4(Escape(n)[2..]) == Some(n)
  {
    assert Escape(n)[2..] == Hex4(n) + "";
    Hex4RoundTrip(n, "");
  }
}
