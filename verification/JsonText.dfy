/** Reading JSON texts (RFC 8259, sections 2 to 7): the reference the canonical texts are read back with. */
module JsonText {
  import opened Text
  import opened Canonical

  datatype Read<+T> = Got(value: T, rest: string) | Wrong

  // ----- white space and numbers (sections 2 and 6) -----

  function SkipWs(s: string): (r: string)
    ensures |r| <= |s|
  {
    if s != "" && (s[0] == ' ' || s[0] == '\t' || s[0] == '\n' || s[0] == '\r') then SkipWs(s[1..]) else s
  }

  predicate IsDigit(c: char) {
    '0' <= c <= '9'
  }

  /** How many digits `s` begins with. */
  function Digits(s: string): (n: nat)
    ensures n <= |s|
  {
    if s == "" || !IsDigit(s[0]) then 0 else 1 + Digits(s[1..])
  }

  /** The length of the integer part: no digit behind a leading zero is part of it. */
  function IntLen(s: string): (n: nat)
    ensures n <= |s|
  {
    if s != "" && s[0] == '0' then 1 else Digits(s)
  }

  /** The length of a fraction, 0 if there is none. */
  function FracLen(s: string): (n: nat)
    ensures n <= |s|
  {
    if s == "" || s[0] != '.' || Digits(s[1..]) == 0 then 0 else 1 + Digits(s[1..])
  }

  /** The length of an exponent, 0 if there is none. */
  function ExpLen(s: string): (n: nat)
    ensures n <= |s|
  {
    if s == "" || (s[0] != 'e' && s[0] != 'E') then 0
    else
      var sign := if |s| > 1 && (s[1] == '+' || s[1] == '-') then 2 else 1;
      if Digits(s[sign..]) == 0 then 0 else sign + Digits(s[sign..])
  }

  /** The length of the number `s` begins with, 0 if there is none. */
  function NumberLen(s: string): (n: nat)
    ensures n <= |s|
  {
    var sign := if s != "" && s[0] == '-' then 1 else 0;
    var i := IntLen(s[sign..]);
    if i == 0 then 0
    else
      var f := FracLen(s[sign + i..]);
      sign + i + f + ExpLen(s[sign + i + f..])
  }

  predicate IsNumber(lexeme: string) {
    lexeme != "" && NumberLen(lexeme) == |lexeme|
  }

  // ----- strings (section 7) -----

  function HexValue(c: char): Option<nat> {
    if '0' <= c <= '9' then Some(c as int - '0' as int)
    else if 'a' <= c <= 'f' then Some(c as int - 'a' as int + 10)
    else if 'A' <= c <= 'F' then Some(c as int - 'A' as int + 10)
    else None
  }

  /** The code unit of four hexadecimal digits. */
  function CodeUnit(s: string): (u: Option<nat>)
    ensures u.Some? ==> |s| >= 4
  {
    if |s| < 4 || HexValue(s[0]).None? || HexValue(s[1]).None? || HexValue(s[2]).None? || HexValue(s[3]).None? then None
    else
      Some(HexValue(s[0]).value * 4096 + HexValue(s[1]).value * 256 + HexValue(s[2]).value * 16 + HexValue(s[3]).value)
  }

  /** Continuation byte `k` of a code point. */
  function Cont(u: nat, k: nat): char
    requires k > 0
  {
    (128 + u / k % 64) as char
  }

  /** UTF-8. */
  function Utf8(u: nat): string {
    if u < 0x80 then [u as char]
    else if u < 0x800 then [(0xC0 + u / 64) as char, Cont(u, 1)]
    else if u < 0x1_0000 then [(0xE0 + u / 4096) as char, Cont(u, 64), Cont(u, 1)]
    else if u < 0x11_0000 then [(0xF0 + u / 262144) as char, Cont(u, 4096), Cont(u, 64), Cont(u, 1)]
    else "\U{EF}\U{BF}\U{BD}"
  }

  const REPLACEMENT := 0xFFFD

  /** What an escape behind its backslash stands for; a surrogate without its other half reads as U+FFFD. */
  function Unescaped(s: string): (r: Read<string>)
    ensures r.Got? ==> |r.rest| < |s|
  {
    if s == "" then Wrong
    else if s[0] == '"' || s[0] == '\\' || s[0] == '/' then Got([s[0]], s[1..])
    else if s[0] == 'b' then Got("\U{08}", s[1..])
    else if s[0] == 'f' then Got("\U{0C}", s[1..])
    else if s[0] == 'n' then Got("\n", s[1..])
    else if s[0] == 'r' then Got("\r", s[1..])
    else if s[0] == 't' then Got("\t", s[1..])
    else if s[0] != 'u' || CodeUnit(s[1..]).None? then Wrong
    else
      var u, rest := CodeUnit(s[1..]).value, s[5..];
      if u < 0xD800 || u >= 0xE000 then Got(Utf8(u), rest)
      else if u < 0xDC00 && "\\u" <= rest && CodeUnit(rest[2..]).Some? &&
          0xDC00 <= CodeUnit(rest[2..]).value < 0xE000 then
        Got(Utf8(0x1_0000 + (u - 0xD800) * 1024 + (CodeUnit(rest[2..]).value - 0xDC00)), rest[6..])
      else Got(Utf8(REPLACEMENT), rest)
  }

  /** The text of a string literal behind its quote; `read` is what came before. */
  function ReadChars(s: string, read: string): (r: Read<string>)
    ensures r.Got? ==> |r.rest| < |s|
    decreases |s|
  {
    if s == "" || s[0] < ' ' then Wrong
    else if s[0] == '"' then Got(read, s[1..])
    else if s[0] == '\\' then
      match Unescaped(s[1..])
      case Wrong => Wrong
      case Got(c, rest) => ReadChars(rest, read + c)
    else ReadChars(s[1..], read + [s[0]])
  }

  // ----- values, arrays and objects (sections 3, 4 and 5) -----

  function ReadValue(s: string): (r: Read<Tree>)
    ensures r.Got? ==> |r.rest| < |s|
    decreases |s|, 2
  {
    var t := SkipWs(s);
    if t == "" then Wrong
    else if t[0] == '"' then
      match ReadChars(t[1..], "")
      case Wrong => Wrong
      case Got(text, rest) => Got(String(text), rest)
    else if t[0] == '[' then
      match ReadItems(t[1..], true)
      case Wrong => Wrong
      case Got(items, rest) => Got(List(items), rest)
    else if t[0] == '{' then
      match ReadMembers(t[1..], true)
      case Wrong => Wrong
      case Got(members, rest) => Got(Object(members), rest)
    else if "null" <= t then Got(Null, t[4..])
    else if "true" <= t then Got(Bool(true), t[4..])
    else if "false" <= t then Got(Bool(false), t[5..])
    else if NumberLen(t) > 0 then Got(Number(t[..NumberLen(t)]), t[NumberLen(t)..])
    else Wrong
  }

  /** Items up to the closing bracket; a comma goes before each but the first. */
  function ReadItems(s: string, first: bool): (r: Read<Items>)
    ensures r.Got? ==> |r.rest| < |s|
    decreases |s|, 3
  {
    var t := SkipWs(s);
    if t == "" then Wrong
    else if t[0] == ']' then Got(NoItems, t[1..])
    else if !first && t[0] != ',' then Wrong
    else
      match ReadValue(if first then t else t[1..])
      case Wrong => Wrong
      case Got(v, rest) =>
        match ReadItems(rest, false)
        case Wrong => Wrong
        case Got(tail, end) => Got(Item(v, tail), end)
  }

  function ReadMembers(s: string, first: bool): (r: Read<Members>)
    ensures r.Got? ==> |r.rest| < |s|
    decreases |s|, 3
  {
    var t := SkipWs(s);
    if t == "" then Wrong
    else if t[0] == '}' then Got(NoMembers, t[1..])
    else if !first && t[0] != ',' then Wrong
    else
      match ReadKey(if first then t else t[1..])
      case Wrong => Wrong
      case Got(key, colon) =>
        match ReadValue(colon)
        case Wrong => Wrong
        case Got(v, rest) =>
          match ReadMembers(rest, false)
          case Wrong => Wrong
          case Got(tail, end) => Got(Member(key, v, tail), end)
  }

  /** A name and the colon behind it. */
  function ReadKey(s: string): (r: Read<string>)
    ensures r.Got? ==> |r.rest| < |s|
  {
    var t := SkipWs(s);
    if t == "" || t[0] != '"' then Wrong
    else
      match ReadChars(t[1..], "")
      case Wrong => Wrong
      case Got(key, rest) =>
        var u := SkipWs(rest);
        if u == "" || u[0] != ':' then Wrong else Got(key, u[1..])
  }

  /** A text with one value and nothing else. */
  function ReadText(s: string): Option<Tree> {
    match ReadValue(s)
    case Wrong => None
    case Got(v, rest) => if SkipWs(rest) == "" then Some(v) else None
  }
}
