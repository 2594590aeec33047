/** Text encodings used by the canonical form of an audit event: fixed-width
    numerals and JSON strings as Python's `json.dumps` writes them (ASCII only). */
module Text {

  datatype Option<+T> = None | Some(value: T)

  /** What Python prints for an object. `textual` is false if it holds a lone surrogate: Pydantic does
      not take it as a string then. */
  datatype Message = Message(text: string, textual: bool)

  // ---------------------------------------------------------------- numerals

  function Digit(d: nat): char
    requires d < 16
  {
    if d < 10 then ('0' as int + d) as char else ('a' as int + d - 10) as char
  }

  /** The value of a hexadecimal digit, or -1 for any other character. */
  function DigitValue(c: char): int {
    if '0' <= c <= '9' then c as int - '0' as int
    else if 'a' <= c <= 'f' then c as int - 'a' as int + 10
    else if 'A' <= c <= 'F' then c as int - 'A' as int + 10
    else -1
  }

  predicate AllHex(s: string) {
    forall c <- s :: DigitValue(c) >= 0
  }

  function Pow(base: nat, e: nat): nat {
    if e == 0 then 1 else base * Pow(base, e - 1)
  }

  /** `n` in `width` digits, most significant first, padded with zeros. */
  function Render(n: nat, base: nat, width: nat): (s: string)
    requires 2 <= base <= 16
    ensures |s| == width && AllHex(s)
    decreases width
  {
    if width == 0 then "" else Render(n / base, base, width - 1) + [Digit(n % base)]
  }

  function Numeral(s: string, base: nat): int {
    if s == "" then 0 else Numeral(s[..|s| - 1], base) * base + DigitValue(s[|s| - 1])
  }

  lemma QuotientBelow(n: nat, base: nat, p: nat)
    requires base > 0 && n < base * p
    ensures n / base < p && n / base * base + n % base == n
  {
    assert base * (n / base) <= n;
  }

  lemma NumeralSnoc(s: string, c: char, base: nat)
    ensures Numeral(s + [c], base) == Numeral(s, base) * base + DigitValue(c)
  {
    assert (s + [c])[..|s|] == s;
  }

  /** Reading a numeral back gives the number that was written. */
  lemma {:induction false} RenderRoundTrip(n: nat, base: nat, width: nat)
    requires 2 <= base <= 16 && n < Pow(base, width)
    ensures Numeral(Render(n, base, width), base) == n
    decreases width
  {
    if width > 0 {
      QuotientBelow(n, base, Pow(base, width - 1));
      RenderRoundTrip(n / base, base, width - 1);
      NumeralSnoc(Render(n / base, base, width - 1), Digit(n % base), base);
    }
  }

  lemma RenderInjective(m: nat, n: nat, base: nat, width: nat)
    requires 2 <= base <= 16 && m < Pow(base, width) && n < Pow(base, width)
    requires Render(m, base, width) == Render(n, base, width)
    ensures m == n
  {
    RenderRoundTrip(m, base, width);
    RenderRoundTrip(n, base, width);
  }

  predicate AllLower(s: string) {
    forall c <- s :: '0' <= c <= '9' || 'a' <= c <= 'f'
  }

  /** Hexadecimal digits are lower-case. */
  lemma {:induction false} RenderIsLower(n: nat, base: nat, width: nat)
    requires 2 <= base <= 16
    ensures AllLower(Render(n, base, width))
    decreases width
  {
    if width > 0 {
      RenderIsLower(n / base, base, width - 1);
    }
  }

  // ------------------------------------------------------------ JSON strings

  /** `\uXXXX` with lower-case digits. */
  function Unit(u: nat): (s: string)
    requires u < 0x10000
    ensures |s| == 6
  {
    "\\u" + Render(u, 16, 4)
  }

  /** One character as `json.dumps` writes it: short escapes, printable ASCII as is,
      everything else as one UTF-16 unit or a surrogate pair. */
  function EscapeChar(c: char): (s: string)
    ensures |s| > 0 && s[0] != '"'
  {
    if c == '"' then "\\\""
    else if c == '\\' then "\\\\"
    else if c == 8 as char then "\\b"
    else if c == 12 as char then "\\f"
    else if c == '\n' then "\\n"
    else if c == '\r' then "\\r"
    else if c == '\t' then "\\t"
    else if ' ' <= c <= '~' then [c]
    else if c as int < 0x10000 then Unit(c as int)
    else
      var v := c as int - 0x10000;
      Unit(0xD800 + v / 0x400) + Unit(0xDC00 + v % 0x400)
  }

  function Escape(s: string): string {
    if s == "" then "" else EscapeChar(s[0]) + Escape(s[1..])
  }

  /** The UTF-16 unit written at `i`, if there is one. */
  function UnitAt(t: string, i: nat): (u: Option<int>) {
    if i + 6 <= |t| && t[i..i + 2] == "\\u" && AllHex(t[i + 2..i + 6])
    then Some(Numeral(t[i + 2..i + 6], 16)) else None
  }

  /** Undoes the escaping of section 7 of RFC 8259 at the front of `t`: the character
      read and how many characters of text it took. */
  function ReadChar(t: string): (r: Option<(char, nat)>)
    requires t != ""
    ensures r.Some? ==> 0 < r.value.1 <= |t|
  {
    if t[0] < ' ' then None
    else if t[0] != '\\' then Some((t[0], 1))
    else if |t| < 2 then None
    else if t[1] in "\"\\/" then Some((t[1], 2))
    else if t[1] == 'b' then Some((8 as char, 2))
    else if t[1] == 'f' then Some((12 as char, 2))
    else if t[1] == 'n' then Some(('\n', 2))
    else if t[1] == 'r' then Some(('\r', 2))
    else if t[1] == 't' then Some(('\t', 2))
    else match UnitAt(t, 0)
      case None => None
      case Some(u) =>
        if 0 <= u < 0xD800 || 0xE000 <= u < 0x10000 then Some((u as char, 6))
        else match UnitAt(t, 6)
          case None => None
          case Some(v) =>
            if 0xD800 <= u < 0xDC00 <= v < 0xE000
            then Some(((0x10000 + (u - 0xD800) * 0x400 + (v - 0xDC00)) as char, 12))
            else None
  }

  /** The contents up to the closing quote, and the text after it. */
  function ReadString(t: string): Option<(string, string)>
    decreases |t|
  {
    if t == "" then None
    else if t[0] == '"' then Some(("", t[1..]))
    else match ReadChar(t)
      case None => None
      case Some((c, n)) =>
        match ReadString(t[n..])
        case None => None
        case Some((s, rest)) => Some(([c] + s, rest))
  }

  lemma UnitRead(t: string, i: nat, u: nat)
    requires u < 0x10000 && i + 6 <= |t| && t[i..i + 6] == Unit(u)
    ensures UnitAt(t, i) == Some(u)
  {
    var s := t[i..i + 6];
    assert t[i..i + 2] == s[..2] == "\\u";
    assert t[i + 2..i + 6] == s[2..] == Render(u, 16, 4);
    assert Pow(16, 4) == 0x10000;
    RenderRoundTrip(u, 16, 4);
  }

  lemma ReadUnit(u: nat, rest: string)
    requires u < 0xD800 || 0xE000 <= u < 0x10000
    ensures ReadChar(Unit(u) + rest) == Some((u as char, 6))
  {
    var t := Unit(u) + rest;
    assert t[0..6] == Unit(u);
    assert t[0] == '\\' && t[1] == 'u';
    UnitRead(t, 0, u);
  }

  lemma ReadPair(hi: nat, lo: nat, rest: string)
    requires 0xD800 <= hi < 0xDC00 <= lo < 0xE000
    ensures ReadChar(Unit(hi) + Unit(lo) + rest)
         == Some(((0x10000 + (hi - 0xD800) * 0x400 + (lo - 0xDC00)) as char, 12))
  {
    var t := Unit(hi) + Unit(lo) + rest;
    assert t[0..6] == Unit(hi);
    assert t[6..12] == Unit(lo);
    assert t[0] == '\\' && t[1] == 'u';
    UnitRead(t, 0, hi);
    UnitRead(t, 6, lo);
  }

  predicate HasShortForm(c: char) {
    c in "\"\\\n\r\t" || c == 8 as char || c == 12 as char
  }

  lemma ReadShortForm(c: char, rest: string)
    requires HasShortForm(c)
    ensures |EscapeChar(c)| == 2 && ReadChar(EscapeChar(c) + rest) == Some((c, 2))
  {
    var t := EscapeChar(c) + rest;
    assert t[0] == '\\' && t[1] == EscapeChar(c)[1];
  }

  lemma ReadPlain(c: char, rest: string)
    requires !HasShortForm(c) && ' ' <= c <= '~'
    ensures |EscapeChar(c)| == 1 && ReadChar(EscapeChar(c) + rest) == Some((c, 1))
  {
    assert (EscapeChar(c) + rest)[0] == c;
  }

  lemma UnitForm(c: char)
    requires !HasShortForm(c) && !(' ' <= c <= '~') && c as int < 0x10000
    ensures EscapeChar(c) == Unit(c as int)
  {
  }

  lemma PairForm(c: char)
    requires c as int >= 0x10000
    ensures var v := c as int - 0x10000;
      EscapeChar(c) == Unit(0xD800 + v / 0x400) + Unit(0xDC00 + v % 0x400)
  {
  }

  lemma ReadCharInvertsEscape(c: char, rest: string)
    ensures ReadChar(EscapeChar(c) + rest) == Some((c, |EscapeChar(c)|))
  {
    if c as int >= 0x10000 {
      var v := c as int - 0x10000;
      ReadPair(0xD800 + v / 0x400, 0xDC00 + v % 0x400, rest);
      PairForm(c);
    } else if HasShortForm(c) {
      ReadShortForm(c, rest);
    } else if ' ' <= c <= '~' {
      ReadPlain(c, rest);
    } else {
      ReadUnit(c as int, rest);
      UnitForm(c);
    }
  }

  lemma ReadOneMore(t: string, c: char, n: nat, s: string, rest: string)
    requires t != "" && t[0] != '"' && ReadChar(t) == Some((c, n)) && ReadString(t[n..]) == Some((s, rest))
    ensures ReadString(t) == Some(([c] + s, rest))
  {
  }

  /** A string written by `Escape` and closed by a quote is read back exactly, whatever follows. */
  lemma {:induction false} ReadStringInvertsEscape(s: string, rest: string)
    ensures ReadString(Escape(s) + "\"" + rest) == Some((s, rest))
  {
    if s == "" {
      assert ("" + "\"" + rest)[1..] == rest;
    } else {
      var e, tail := EscapeChar(s[0]), Escape(s[1..]) + "\"" + rest;
      ReadStringInvertsEscape(s[1..], rest);
      ReadCharInvertsEscape(s[0], tail);
      assert (e + tail)[|e|..] == tail;
      ReadOneMore(e + tail, s[0], |e|, s[1..], rest);
      assert Escape(s) + "\"" + rest == e + tail;
      assert s == [s[0]] + s[1..];
    }
  }
}
