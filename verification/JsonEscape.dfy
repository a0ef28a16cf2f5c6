/** The two forms in which `json.dumps` writes a string, and what they decode to: section 7
    of RFC 8259. A character is a Unicode scalar value, so lone surrogates do not occur. */
module JsonEscape {
  import opened Common

  function HexDigit(d: nat): char
    requires d < 16
  {
    if d < 10 then ('0' as int + d) as char else ('a' as int + d - 10) as char
  }

  function HexValue(c: char): Option<nat> {
    if '0' <= c <= '9' then Some(c as int - '0' as int)
    else if 'a' <= c <= 'f' then Some(c as int - 'a' as int + 10)
    else if 'A' <= c <= 'F' then Some(c as int - 'A' as int + 10)
    else None
  }

  /** The four hexadecimal digits of `n`. */
  function Digits(n: nat): (r: (nat, nat, nat, nat))
    requires n < 0x10000
    ensures r.0 < 16 && r.1 < 16 && r.2 < 16 && r.3 < 16
    ensures n == 4096 * r.0 + 256 * r.1 + 16 * r.2 + r.3
  {
    var low := n % 4096;
    var last := low % 256;
    (n / 4096, low / 256, last / 16, last % 16)
  }

  function Unit(n: nat): string
    requires n < 0x10000
  {
    var (a, b, c, d) := Digits(n);
    ['\\', 'u', HexDigit(a), HexDigit(b), HexDigit(c), HexDigit(d)]
  }

  function Numbered(n: nat): string
    requires n < 0x110000
  {
    if n < 0x10000 then Unit(n)
    else Unit(0xD800 + (n - 0x10000) / 0x400) + Unit(0xDC00 + (n - 0x10000) % 0x400)
  }

  /** One character as `json.dumps` writes it; `ascii` is its `ensure_ascii`. */
  function EscapeChar(c: char, ascii: bool): string {
    if c == '"' then "\\\""
    else if c == '\\' then "\\\\"
    else if c as int == 8 then "\\b"
    else if c as int == 12 then "\\f"
    else if c == '\n' then "\\n"
    else if c == '\r' then "\\r"
    else if c == '\t' then "\\t"
    else if c < ' ' || (ascii && c > '~') then Numbered(c as int)
    else [c]
  }

  function Escape(s: string, ascii: bool): string {
    if s == "" then "" else EscapeChar(s[0], ascii) + Escape(s[1..], ascii)
  }

  // ---------------------------------------------------------------- decoding

  function ReadUnit(s: string): Option<nat> {
    if |s| < 6 || s[0] != '\\' || s[1] != 'u' then None
    else
      match (HexValue(s[2]), HexValue(s[3]), HexValue(s[4]), HexValue(s[5]))
      case (Some(a), Some(b), Some(c), Some(d)) => Some(4096 * a + 256 * b + 16 * c + d)
      case _ => None
  }

  /** The first character of an encoded string, with how many characters encode it. */
  function ReadChar(s: string): Option<(char, nat)>
    requires s != ""
    ensures ReadChar(s).Some? ==> 0 < ReadChar(s).value.1 <= |s|
  {
    if s[0] == '"' || s[0] < ' ' then None
    else if s[0] != '\\' then Some((s[0], 1))
    else if |s| < 2 then None
    else if s[1] == 'u' then ReadNumbered(s)
    else if s[1] in "\"\\/" then Some((s[1], 2))
    else if s[1] == 'b' then Some((8 as char, 2))
    else if s[1] == 'f' then Some((12 as char, 2))
    else if s[1] == 'n' then Some(('\n', 2))
    else if s[1] == 'r' then Some(('\r', 2))
    else if s[1] == 't' then Some(('\t', 2))
    else None
  }

  function ReadNumbered(s: string): Option<(char, nat)>
    ensures ReadNumbered(s).Some? ==> 0 < ReadNumbered(s).value.1 <= |s|
  {
    match ReadUnit(s)
    case None => None
    case Some(n) =>
      if 0xD800 <= n < 0xDC00 then
        match ReadUnit(s[6..])
        case Some(m) =>
          if 0xDC00 <= m < 0xE000 then Some(((0x10000 + (n - 0xD800) * 0x400 + (m - 0xDC00)) as char, 12)) else None
        case None => None
      else if 0xDC00 <= n < 0xE000 || n > 0xFFFF then None
      else Some((n as char, 6))
  }

  function Unescape(s: string): Option<string>
    decreases |s|
  {
    if s == "" then Some("")
    else
      match ReadChar(s)
      case None => None
      case Some((c, n)) =>
        match Unescape(s[n..])
        case None => None
        case Some(rest) => Some([c] + rest)
  }

  // ------------------------------------------------------------- properties

  lemma {:induction false} HexBack(d: nat)
    requires d < 16
    ensures HexValue(HexDigit(d)) == Some(d)
  {
  }

  lemma {:induction false} ReadUnitOfUnit(n: nat, rest: string)
    requires n < 0x10000
    ensures ReadUnit(Unit(n) + rest) == Some(n)
  {
    var (a, b, c, d) := Digits(n);
    HexBack(a);
    HexBack(b);
    HexBack(c);
    HexBack(d);
    hide HexDigit, HexValue, Digits;
    var s := Unit(n) + rest;
    assert s[2] == HexDigit(a) && s[3] == HexDigit(b) && s[4] == HexDigit(c) && s[5] == HexDigit(d);
  }

  lemma {:induction false} UnitLength(n: nat)
    requires n < 0x10000
    ensures |Unit(n)| == 6 && forall i :: 0 <= i < 6 ==> ' ' <= Unit(n)[i] <= '~'
  {
  }

  lemma {:induction false} ReadNumberedOf(c: char, rest: string)
    ensures ReadNumbered(Numbered(c as int) + rest) == Some((c, |Numbered(c as int)|))
  {
    hide Unit, ReadUnit;
    var n := c as int;
    if n < 0x10000 {
      ReadUnitOfUnit(n, rest);
      UnitLength(n);
    } else {
      var hi, lo := 0xD800 + (n - 0x10000) / 0x400, 0xDC00 + (n - 0x10000) % 0x400;
      ReadUnitOfUnit(hi, Unit(lo) + rest);
      ReadUnitOfUnit(lo, rest);
      UnitLength(hi);
      UnitLength(lo);
      assert Numbered(n) + rest == Unit(hi) + (Unit(lo) + rest);
      assert (Numbered(n) + rest)[6..] == Unit(lo) + rest;
    }
  }

  lemma {:induction false} ReadCharOf(c: char, ascii: bool, rest: string)
    ensures EscapeChar(c, ascii) != ""
    ensures ReadChar(EscapeChar(c, ascii) + rest) == Some((c, |EscapeChar(c, ascii)|))
  {
    var s := EscapeChar(c, ascii) + rest;
    if c != '"' && c != '\\' && c as int !in {8, 12} && c !in "\n\r\t" && (c < ' ' || (ascii && c > '~')) {
      ReadNumberedOf(c, rest);
      assert s[0] == '\\' && s[1] == 'u';
    }
  }

  /** Both forms are JSON for the string they were made from. */
  lemma {:induction false} EscapeDecodes(s: string, ascii: bool)
    ensures Unescape(Escape(s, ascii)) == Some(s)
  {
    if s != "" {
      var rest := Escape(s[1..], ascii);
      ReadCharOf(s[0], ascii, rest);
      EscapeDecodes(s[1..], ascii);
      assert Escape(s, ascii)[|EscapeChar(s[0], ascii)|..] == rest;
      assert s == [s[0]] + s[1..];
    }
  }

  /** A string inside another is written inside the other's JSON form. */
  lemma {:induction false} EscapeJoins(a: string, b: string, ascii: bool)
    ensures Escape(a + b, ascii) == Escape(a, ascii) + Escape(b, ascii)
  {
    if a == "" {
      assert a + b == b;
    } else {
      assert (a + b)[1..] == a[1..] + b;
      EscapeJoins(a[1..], b, ascii);
    }
  }

  lemma {:induction false} EscapeCharIsAscii(c: char)
    ensures forall i :: 0 <= i < |EscapeChar(c, true)| ==> ' ' <= EscapeChar(c, true)[i] <= '~'
  {
    var n := c as int;
    hide Unit;
    if n < 0x10000 {
      UnitLength(n);
    } else {
      UnitLength(0xD800 + (n - 0x10000) / 0x400);
      UnitLength(0xDC00 + (n - 0x10000) % 0x400);
    }
  }

  /** The ASCII form holds only printable ASCII characters. */
  lemma {:induction false} EscapeIsAscii(s: string)
    ensures forall i :: 0 <= i < |Escape(s, true)| ==> ' ' <= Escape(s, true)[i] <= '~'
  {
    hide EscapeChar;
    if s != "" {
      EscapeCharIsAscii(s[0]);
      EscapeIsAscii(s[1..]);
    }
  }

  lemma {:induction false} EscapeGrows(s: string, ascii: bool)
    ensures |Escape(s, ascii)| >= |s|
  {
    if s != "" {
      EscapeGrows(s[1..], ascii);
    }
  }

  // ------------------------------------------------ the one shortest encoding

  predicate Printable(t: string) {
    forall i :: 0 <= i < |t| ==> ' ' <= t[i] <= '~'
  }

  predicate IsLower(c: char) {
    !('A' <= c <= 'F')
  }

  /** Every `\u` unit of an encoded string has lower-case digits. */
  predicate LowerUnits(t: string)
    decreases |t|
  {
    if t == "" || ReadChar(t).None? then true
    else
      var n := ReadChar(t).value.1;
      && (n >= 6 ==> forall i :: 2 <= i < 6 ==> IsLower(t[i]))
      && (n >= 12 ==> forall i :: 8 <= i < 12 ==> IsLower(t[i]))
      && LowerUnits(t[n..])
  }

  /** How a character can be encoded: as itself, by a letter, by a unit or by two. */
  lemma {:induction false} CharLengths(t: string)
    requires t != "" && ReadChar(t).Some?
    ensures var (c, n) := ReadChar(t).value;
            && n in {1, 2, 6, 12}
            && (n == 1 ==> c == t[0] && c != '"' && c != '\\' && c >= ' ')
            && (n == 2 ==> c in "\"\\/\n\r\t" || c as int in {8, 12})
            && (n == 6 ==> c as int < 0x10000)
  {
  }

  lemma {:induction false} ShortestChar(t: string, ascii: bool)
    requires t != "" && ReadChar(t).Some? && (ascii ==> Printable(t))
    ensures |EscapeChar(ReadChar(t).value.0, ascii)| <= ReadChar(t).value.1
  {
    hide ReadChar, Unit;
    CharLengths(t);
    var c := ReadChar(t).value.0 as int;
    if c < 0x10000 {
      UnitLength(c);
    } else {
      UnitLength(0xD800 + (c - 0x10000) / 0x400);
      UnitLength(0xDC00 + (c - 0x10000) % 0x400);
    }
  }

  /** Of all that decodes to a string, in ASCII when that is asked for, nothing is shorter. */
  lemma {:induction false} EscapeIsShortest(s: string, ascii: bool, t: string)
    requires Unescape(t) == Some(s) && (ascii ==> Printable(t))
    ensures |Escape(s, ascii)| <= |t|
    decreases |t|
  {
    hide ReadChar, EscapeChar;
    if t != "" {
      var (c, n) := ReadChar(t).value;
      ShortestChar(t, ascii);
      assert s[0] == c && Unescape(t[n..]) == Some(s[1..]);
      EscapeIsShortest(s[1..], ascii, t[n..]);
    }
  }

  lemma {:induction false} DigitsOf(a: nat, b: nat, c: nat, d: nat)
    requires a < 16 && b < 16 && c < 16 && d < 16
    ensures Digits(4096 * a + 256 * b + 16 * c + d) == (a, b, c, d)
  {
    hide Digits;
    var (e, f, g, h) := Digits(4096 * a + 256 * b + 16 * c + d);
    assert e == a && f == b && g == c && h == d;
  }

  lemma {:induction false} LowerDigit(c: char)
    requires HexValue(c).Some? && IsLower(c)
    ensures HexValue(c).value < 16 && HexDigit(HexValue(c).value) == c
  {
  }

  lemma {:induction false} UnitOfRead(t: string)
    requires ReadUnit(t).Some? && forall i :: 2 <= i < 6 ==> IsLower(t[i])
    ensures ReadUnit(t).value < 0x10000 && Unit(ReadUnit(t).value) == t[..6]
  {
    hide Digits, HexDigit, HexValue, IsLower;
    LowerDigit(t[2]);
    LowerDigit(t[3]);
    LowerDigit(t[4]);
    LowerDigit(t[5]);
    DigitsOf(HexValue(t[2]).value, HexValue(t[3]).value, HexValue(t[4]).value, HexValue(t[5]).value);
  }

  lemma {:induction false} PairBack(n: nat, m: nat)
    requires 0xD800 <= n < 0xDC00 && 0xDC00 <= m < 0xE000
    ensures var c := 0x10000 + (n - 0xD800) * 0x400 + (m - 0xDC00);
            0x10000 <= c < 0x110000 && 0xD800 + (c - 0x10000) / 0x400 == n && 0xDC00 + (c - 0x10000) % 0x400 == m
  {
  }

  lemma {:induction false} NumberedOfRead(t: string)
    requires ReadNumbered(t).Some?
    requires forall i :: 2 <= i < 6 ==> IsLower(t[i])
    requires ReadNumbered(t).value.1 == 12 ==> forall i :: 8 <= i < 12 ==> IsLower(t[i])
    ensures var (c, n) := ReadNumbered(t).value; n in {6, 12} && Numbered(c as int) == t[..n]
  {
    hide Unit, ReadUnit, IsLower;
    UnitRead(t);
    UnitOfRead(t);
    var n := ReadUnit(t).value;
    if 0xD800 <= n < 0xDC00 {
      UnitRead(t[6..]);
      UnitOfRead(t[6..]);
      PairBack(n, ReadUnit(t[6..]).value);
      assert t[..12] == t[..6] + t[6..][..6];
    }
  }

  lemma {:induction false} UnitRead(t: string)
    ensures ReadUnit(t).Some? ==> |t| >= 6
  {
  }

  lemma {:induction false} NumberedLength(t: string)
    ensures ReadNumbered(t).Some? ==> ReadNumbered(t).value.1 in {6, 12}
  {
  }

  /** An encoding of a character as long as the one written, with lower-case digits, is it. */
  lemma {:induction false} OnlyShortestChar(t: string, ascii: bool)
    requires t != "" && ReadChar(t).Some? && LowerUnits(t) && (ascii ==> Printable(t))
    requires ReadChar(t).value.1 <= |EscapeChar(ReadChar(t).value.0, ascii)|
    ensures EscapeChar(ReadChar(t).value.0, ascii) == t[..ReadChar(t).value.1]
  {
    hide Unit, ReadUnit, ReadNumbered, Numbered;
    var (c, n) := ReadChar(t).value;
    CharLengths(t);
    NumberedLength(t);
    if n >= 6 {
      assert t[0] == '\\' && t[1] == 'u' && ReadChar(t) == ReadNumbered(t);
      NumberedOfRead(t);
    } else if n == 1 {
      assert t[..1] == [t[0]];
    } else {
      assert t[..2] == [t[0], t[1]] && t[0] == '\\';
    }
  }

  /** And nothing else is as short, its digits being lower-case: the form is the one shortest
      encoding. */
  lemma {:induction false} EscapeIsOnlyShortest(s: string, ascii: bool, t: string)
    requires Unescape(t) == Some(s) && LowerUnits(t) && (ascii ==> Printable(t)) && |t| <= |Escape(s, ascii)|
    ensures t == Escape(s, ascii)
    decreases |t|
  {
    hide ReadChar, EscapeChar;
    if t != "" {
      var (c, n) := ReadChar(t).value;
      ShortestChar(t, ascii);
      assert s[0] == c && Unescape(t[n..]) == Some(s[1..]);
      EscapeIsShortest(s[1..], ascii, t[n..]);
      OnlyShortestChar(t, ascii);
      EscapeIsOnlyShortest(s[1..], ascii, t[n..]);
      assert t == t[..n] + t[n..];
    }
  }

  lemma {:induction false} LowerUnit(n: nat)
    requires n < 0x10000
    ensures |Unit(n)| == 6 && forall i :: 2 <= i < 6 ==> IsLower(Unit(n)[i])
  {
  }

  lemma {:induction false} LowerNumbered(n: nat)
    requires n < 0x110000
    ensures |Numbered(n)| in {6, 12} && forall i :: 2 <= i < 6 ==> IsLower(Numbered(n)[i])
    ensures |Numbered(n)| == 12 ==> forall i :: 8 <= i < 12 ==> IsLower(Numbered(n)[i])
  {
    hide Unit, IsLower;
    if n < 0x10000 {
      LowerUnit(n);
    } else {
      LowerUnit(0xD800 + (n - 0x10000) / 0x400);
      LowerUnit(0xDC00 + (n - 0x10000) % 0x400);
    }
  }

  lemma {:induction false} LowerChar(c: char, ascii: bool)
    ensures |EscapeChar(c, ascii)| >= 6 ==> forall i :: 2 <= i < 6 ==> IsLower(EscapeChar(c, ascii)[i])
    ensures |EscapeChar(c, ascii)| >= 12 ==> forall i :: 8 <= i < 12 ==> IsLower(EscapeChar(c, ascii)[i])
  {
    hide Numbered, IsLower;
    LowerNumbered(c as int);
  }

  /** The units that are written have lower-case digits. */
  lemma {:induction false} EscapeIsLower(s: string, ascii: bool)
    ensures LowerUnits(Escape(s, ascii))
  {
    if s != "" {
      hide ReadChar, EscapeChar, IsLower;
      var head, rest := EscapeChar(s[0], ascii), Escape(s[1..], ascii);
      ReadCharOf(s[0], ascii, rest);
      LowerChar(s[0], ascii);
      EscapeIsLower(s[1..], ascii);
      var t := Escape(s, ascii);
      assert t == head + rest && t[|head|..] == rest;
      assert forall i :: 0 <= i < |head| ==> t[i] == head[i];
    }
  }
}
