/** Canonical texts read back: one text for every value (dsml/canonical.go:28-164). */
module CanonicalText {
  import opened Text
  import opened Canonical
  import opened JsonText

  /** Every number is spelled as section 6 of RFC 8259 says. */
  predicate Numbered(v: Tree) {
    match v
    case Number(lexeme) => IsNumber(lexeme)
    case List(items) => ItemsNumbered(items)
    case Object(members) => MembersNumbered(members)
    case _ => true
  }

  predicate ItemsNumbered(items: Items) {
    match items
    case NoItems => true
    case Item(v, tail) => Numbered(v) && ItemsNumbered(tail)
  }

  predicate MembersNumbered(members: Members) {
    match members
    case NoMembers => true
    case Member(_, v, tail) => Numbered(v) && MembersNumbered(tail)
  }

  // ----- numbers -----

  lemma {:induction false} DigitsCut(s: string, k: nat)
    requires k <= |s|
    ensures Digits(s[..k]) == if Digits(s) < k then Digits(s) else k
  {
    if k > 0 && IsDigit(s[0]) {
      assert s[..k][1..] == s[1..][..k - 1];
      DigitsCut(s[1..], k - 1);
    }
  }

  lemma FracCut(s: string, e: nat)
    requires FracLen(s) + e <= |s|
    requires e > 0 ==> s[FracLen(s)] == 'e' || s[FracLen(s)] == 'E'
    ensures FracLen(s[..FracLen(s) + e]) == FracLen(s)
  {
    hide Digits;
    var f := FracLen(s);
    if f > 0 {
      assert s[..f + e][1..] == s[1..][..f + e - 1];
      DigitsCut(s[1..], f + e - 1);
    }
  }

  lemma ExpCut(s: string)
    ensures ExpLen(s[..ExpLen(s)]) == ExpLen(s)
  {
    hide Digits;
    var e := ExpLen(s);
    if e > 0 {
      var sign := if |s| > 1 && (s[1] == '+' || s[1] == '-') then 2 else 1;
      assert s[..e][sign..] == s[sign..][..e - sign];
      DigitsCut(s[sign..], e - sign);
    }
  }

  lemma IntCut(s: string, k: nat)
    requires 0 < IntLen(s) <= k <= |s|
    ensures IntLen(s[..k]) == IntLen(s)
  {
    hide Digits;
    DigitsCut(s, k);
  }

  lemma ExpStarts(s: string)
    ensures ExpLen(s) > 0 ==> s[0] == 'e' || s[0] == 'E'
  {
    hide Digits;
  }

  /** What is read as a number is one. */
  lemma NumberCut(t: string)
    requires NumberLen(t) > 0
    ensures IsNumber(t[..NumberLen(t)])
  {
    hide IntLen, FracLen, ExpLen;
    var n := NumberLen(t);
    var sign := if t != "" && t[0] == '-' then 1 else 0;
    var i := IntLen(t[sign..]);
    var f := FracLen(t[sign + i..]);
    var e := ExpLen(t[sign + i + f..]);
    var u := t[..n];
    IntCut(t[sign..], i + f + e);
    assert u[sign..] == t[sign..][..i + f + e];
    ExpStarts(t[sign + i + f..]);
    FracCut(t[sign + i..], e);
    assert u[sign + i..] == t[sign + i..][..f + e];
    ExpCut(t[sign + i + f..]);
    assert u[sign + i + f..] == t[sign + i + f..][..e];
  }

  /** What may follow a value. */
  predicate Ends(rest: string) {
    rest == "" || rest[0] == ',' || rest[0] == ']' || rest[0] == '}'
  }

  lemma {:induction false} DigitsStop(s: string, rest: string)
    requires Ends(rest)
    ensures Digits(s + rest) == Digits(s)
  {
    if s == "" {
      assert s + rest == rest;
    } else {
      assert (s + rest)[1..] == s[1..] + rest;
      DigitsStop(s[1..], rest);
    }
  }

  lemma PartsStop(s: string, rest: string)
    requires Ends(rest)
    ensures IntLen(s + rest) == IntLen(s) && FracLen(s + rest) == FracLen(s) && ExpLen(s + rest) == ExpLen(s)
  {
    hide Digits;
    DigitsStop(s, rest);
    if s == "" {
      assert s + rest == rest;
    } else {
      assert (s + rest)[1..] == s[1..] + rest;
      DigitsStop(s[1..], rest);
      if |s| > 1 {
        assert (s + rest)[2..] == s[2..] + rest;
        DigitsStop(s[2..], rest);
      }
    }
  }

  lemma NumberStops(lexeme: string, rest: string)
    requires Ends(rest) && lexeme != ""
    ensures NumberLen(lexeme + rest) == NumberLen(lexeme)
  {
    hide IntLen, FracLen, ExpLen;
    var s := lexeme + rest;
    var sign := if lexeme[0] == '-' then 1 else 0;
    assert s[sign..] == lexeme[sign..] + rest;
    PartsStop(lexeme[sign..], rest);
    var i := IntLen(lexeme[sign..]);
    assert s[sign + i..] == lexeme[sign + i..] + rest;
    PartsStop(lexeme[sign + i..], rest);
    var f := FracLen(lexeme[sign + i..]);
    assert s[sign + i + f..] == lexeme[sign + i + f..] + rest;
    PartsStop(lexeme[sign + i + f..], rest);
  }

  // ----- string literals -----

  lemma {:induction false} EscapedFront(c: char, s: string)
    ensures EscapedAll([c] + s) == Escaped(c) + EscapedAll(s)
  {
    hide Escaped;
    if s == "" {
      assert [c] + s == [c] && [c][..0] == "";
    } else {
      var n := |s| - 1;
      assert ([c] + s)[..n + 1] == [c] + s[..n];
      EscapedFront(c, s[..n]);
      assert ([c] + s)[n + 1] == s[n];
      assert Escaped(c) + (EscapedAll(s[..n]) + Escaped(s[n])) == Escaped(c) + EscapedAll(s[..n]) + Escaped(s[n]);
    }
  }

  lemma HexReads(n: nat)
    requires n < 16
    ensures HexValue(Hex(n)) == Some(n)
  {}

  lemma OneByte(c: char)
    requires c < ' '
    ensures Utf8(c as int) == [c]
  {}

  lemma FourDigits(n: nat, rest: string)
    requires n < 256
    ensures CodeUnit("00" + [Hex(n / 16), Hex(n % 16)] + rest) == Some(n)
  {
    assert HexValue('0') == Some(0);
    hide Hex, HexValue;
    HexReads(n / 16);
    HexReads(n % 16);
  }

  /** One escaped byte reads as the byte. */
  lemma CharReads(c: char, rest: string, read: string)
    ensures ReadChars(Escaped(c) + rest, read) == ReadChars(rest, read + [c])
  {
    hide CodeUnit, Utf8, Hex, Unescaped;
    var s := Escaped(c) + rest;
    if Escaped(c) == [c] {
      assert s[1..] == rest;
      assert c >= ' ' && c != '"' && c != '\\';
    } else {
      EscapeReads(c, rest);
    }
  }

  lemma EscapeReads(c: char, rest: string)
    requires Escaped(c) != [c]
    ensures var s := Escaped(c) + rest; s[0] == '\\' && Unescaped(s[1..]) == Got([c], rest)
  {
    hide CodeUnit, Utf8, Hex;
    var s := Escaped(c) + rest;
    if |Escaped(c)| == 2 {
      assert s[2..] == rest && s[1..][1..] == rest;
    } else {
      assert Unescaped("u00" + [Hex(c as int / 16), Hex(c as int % 16)] + rest) == Got([c], rest) by {
        hide HexValue;
        var s := "u00" + [Hex(c as int / 16), Hex(c as int % 16)] + rest;
        FourDigits(c as int, rest);
        assert s[1..] == "00" + [Hex(c as int / 16), Hex(c as int % 16)] + rest;
        assert s[5..] == rest;
        OneByte(c);
      }
      assert s[1..] == "u00" + [Hex(c as int / 16), Hex(c as int % 16)] + rest;
    }
  }

  lemma {:induction false} CharsReadBack(s: string, read: string, rest: string)
    ensures ReadChars(EscapedAll(s) + "\"" + rest, read) == Got(read + s, rest)
    decreases |s|
  {
    hide Escaped, Unescaped;
    if s == "" {
      assert EscapedAll(s) + "\"" + rest == "\"" + rest;
      assert ("\"" + rest)[1..] == rest && read + s == read;
    } else {
      EscapedFront(s[0], s[1..]);
      assert [s[0]] + s[1..] == s;
      assert EscapedAll(s) + "\"" + rest == Escaped(s[0]) + (EscapedAll(s[1..]) + "\"" + rest);
      CharReads(s[0], EscapedAll(s[1..]) + "\"" + rest, read);
      CharsReadBack(s[1..], read + [s[0]], rest);
      assert read + [s[0]] + s[1..] == read + s;
    }
  }

  // ----- values -----

  lemma StringReads(s: string, rest: string)
    ensures var t := Literal(s) + rest; t[0] == '"' && ReadChars(t[1..], "") == Got(s, rest)
  {
    hide EscapedAll, ReadChars;
    var t := Literal(s) + rest;
    assert t[1..] == EscapedAll(s) + "\"" + rest;
    CharsReadBack(s, "", rest);
    assert "" + s == s;
  }

  predicate Visible(s: string) {
    s != "" && s[0] != ' ' && s[0] != '\t' && s[0] != '\n' && s[0] != '\r'
  }

  lemma NumberVisible(lexeme: string)
    requires IsNumber(lexeme)
    ensures lexeme[0] == '-' || IsDigit(lexeme[0])
  {
    hide FracLen, ExpLen;
  }

  lemma ValueStarts(v: Tree, rest: string)
    requires Numbered(v)
    ensures Visible(Printed(v) + rest) && (Printed(v) + rest)[0] !in ",]}:"
    ensures SkipWs(Printed(v) + rest) == Printed(v) + rest
    ensures SkipWs(" " + (Printed(v) + rest)) == Printed(v) + rest
  {
    hide PrintedItems, PrintedMembers, EscapedAll, NumberLen;
    if v.Number? {
      NumberVisible(v.lexeme);
    }
    assert (" " + (Printed(v) + rest))[1..] == Printed(v) + rest;
  }

  /** A blank in front of a value does not matter. */
  lemma BlankBefore(v: Tree, rest: string)
    requires Numbered(v)
    ensures ReadValue(" " + (Printed(v) + rest)) == ReadValue(Printed(v) + rest)
  {
    hide Printed, SkipWs, ReadItems, ReadMembers, ReadChars, NumberLen;
    ValueStarts(v, rest);
  }

  /** The text of a value, read back. */
  lemma {:induction false} ValueReadsBack(v: Tree, rest: string)
    requires Numbered(v) && Ends(rest)
    ensures ReadValue(Printed(v) + rest) == Got(v, rest)
    decreases v
  {
    hide NumberLen, ReadItems, ReadMembers, ReadChars, PrintedItems, PrintedMembers, Literal, SkipWs;
    ValueStarts(v, rest);
    var t := Printed(v) + rest;
    match v {
      case Number(lexeme) =>
        assert ReadValue(lexeme + rest) == Got(Number(lexeme), rest) by {
          NumberVisible(lexeme);
          NumberStops(lexeme, rest);
          assert (lexeme + rest)[..|lexeme|] == lexeme && (lexeme + rest)[|lexeme|..] == rest;
        }
      case String(s) =>
        StringReads(s, rest);
      case List(items) =>
        ItemsReadBack(items, rest, true);
        assert t[1..] == PrintedItems(items, true) + "]" + rest;
      case Object(members) =>
        MembersReadBack(members, rest, true);
        assert t[1..] == PrintedMembers(members, true) + "}" + rest;
      case Null =>
        assert t[4..] == rest && t[..4] == "null";
      case Bool(b) =>
        assert if b then t[4..] == rest && t[..4] == "true" else t[5..] == rest && t[..5] == "false";
    }
  }

  lemma {:induction false} ItemsReadBack(items: Items, rest: string, first: bool)
    requires ItemsNumbered(items)
    ensures ReadItems(PrintedItems(items, first) + "]" + rest, first) == Got(items, rest)
    decreases items
  {
    hide ReadValue, Printed, Numbered, ReadMembers, ReadChars;
    var s := PrintedItems(items, first) + "]" + rest;
    match items {
      case NoItems =>
        assert s == "]" + rest && s[1..] == rest;
      case Item(v, tail) =>
        var after := PrintedItems(tail, false) + "]" + rest;
        assert s == Comma(first) + (Printed(v) + after);
        ItemsEnd(tail, rest);
        ValueStarts(v, after);
        ValueReadsBack(v, after);
        ItemsReadBack(tail, rest, false);
        if first {
          assert s == Printed(v) + after;
        } else {
          assert s[1..] == " " + (Printed(v) + after);
          assert s[0] == ',';
          BlankBefore(v, after);
        }
    }
  }

  lemma ItemsEnd(tail: Items, rest: string)
    ensures Ends(PrintedItems(tail, false) + "]" + rest)
  {
    hide Printed;
  }

  lemma KeyReads(key: string, after: string, gap: string)
    requires gap == "" || gap == " "
    ensures ReadKey(gap + (Literal(key) + ": " + after)) == Got(key, " " + after)
  {
    hide ReadChars, Literal;
    var t := Literal(key) + (": " + after);
    assert Literal(key) + ": " + after == t;
    StringReads(key, ": " + after);
    assert (" " + t)[1..] == t && "" + t == t;
    assert (": " + after)[1..] == " " + after;
  }

  lemma {:induction false} MembersReadBack(members: Members, rest: string, first: bool)
    requires MembersNumbered(members)
    ensures ReadMembers(PrintedMembers(members, first) + "}" + rest, first) == Got(members, rest)
    decreases members
  {
    hide ReadValue, Printed, Numbered, ReadKey, Literal;
    var s := PrintedMembers(members, first) + "}" + rest;
    match members {
      case NoMembers =>
        assert s == "}" + rest && s[1..] == rest;
      case Member(key, v, tail) =>
        var after := PrintedMembers(tail, false) + "}" + rest;
        var u := Literal(key) + ": " + (Printed(v) + after);
        assert s == Comma(first) + u;
        MembersEnd'(tail, rest);
        ValueReadsBack(v, after);
        BlankBefore(v, after);
        MembersReadBack(tail, rest, false);
        KeyReads(key, Printed(v) + after, if first then "" else " ");
        KeyStarts(key, Printed(v) + after);
        if first {
          assert s == u && "" + u == u;
        } else {
          assert s[1..] == " " + u;
          assert s[0] == ',';
        }
    }
  }

  lemma MembersEnd'(tail: Members, rest: string)
    ensures Ends(PrintedMembers(tail, false) + "}" + rest)
  {
    hide Printed, Literal;
  }

  lemma KeyStarts(key: string, after: string)
    ensures var u := Literal(key) + ": " + after; u != "" && u[0] == '"'
  {
    hide EscapedAll;
  }

  // ----- whole texts -----

  /** The canonical text of a value reads as that value, order and number spellings kept. */
  lemma CanonicalReadsBack(v: Tree)
    requires Numbered(v)
    ensures ReadText(Printed(v)) == Some(v)
  {
    hide ReadValue, Printed;
    ValueReadsBack(v, "");
    assert Printed(v) + "" == Printed(v);
  }

  lemma {:induction false} ReadIsNumbered(s: string)
    ensures ReadValue(s).Got? ==> Numbered(ReadValue(s).value)
    decreases |s|, 2
  {
    hide ReadItems, ReadMembers, ReadChars, SkipWs, NumberLen;
    var t := SkipWs(s);
    if t != "" {
      if t[0] == '[' {
        ItemsAreNumbered(t[1..], true);
      } else if t[0] == '{' {
        MembersAreNumbered(t[1..], true);
      } else if NumberLen(t) > 0 {
        NumberCut(t);
      }
    }
  }

  lemma {:induction false} ItemsAreNumbered(s: string, first: bool)
    ensures ReadItems(s, first).Got? ==> ItemsNumbered(ReadItems(s, first).value)
    decreases |s|, 3
  {
    hide ReadValue, SkipWs, Numbered;
    var t := SkipWs(s);
    if t != "" && t[0] != ']' && (first || t[0] == ',') {
      var u := if first then t else t[1..];
      ReadIsNumbered(u);
      if ReadValue(u).Got? {
        ItemsAreNumbered(ReadValue(u).rest, false);
      }
    }
  }

  lemma {:induction false} MembersAreNumbered(s: string, first: bool)
    ensures ReadMembers(s, first).Got? ==> MembersNumbered(ReadMembers(s, first).value)
    decreases |s|, 3
  {
    hide ReadValue, SkipWs, Numbered, ReadKey;
    var t := SkipWs(s);
    if t != "" && t[0] != '}' && (first || t[0] == ',') {
      var u := if first then t else t[1..];
      if ReadKey(u).Got? {
        ReadIsNumbered(ReadKey(u).rest);
        var r := ReadValue(ReadKey(u).rest);
        if r.Got? {
          MembersAreNumbered(r.rest, false);
        }
      }
    }
  }

  /** The decoder's contract: a JSON text comes as the tokens of its value; any other text ends in an error or holds
      another number of values. */
  ghost predicate DecodedAs(raw: string, stream: Stream) {
    match ReadText(raw)
    case Some(v) => stream == Stream(Tokens(v), true)
    case None => !stream.clean || exists vs: seq<Tree> :: |vs| != 1 && AllTokens(vs) == stream.tokens
  }

  /** Exactly the JSON texts of values within the limits have a canonical form: the text of the value. */
  lemma CanonicalOfText(raw: string, stream: Stream, finite: string -> bool)
    requires DecodedAs(raw, stream)
    ensures CanonicalOf(stream, finite) ==
            match ReadText(raw)
            case None => None
            case Some(v) => if Height(v) <= MAX_DEPTH && AllFinite(v, finite) then Some(Printed(v)) else None
  {
    hide ReadText, WriteValue, Tokens, Printed, AllTokens, Height, AllFinite;
    if ReadText(raw).Some? {
      var v := ReadText(raw).value;
      OneValue(v);
      CanonicalIs([v], true, finite);
    } else if stream.clean {
      var vs: seq<Tree> :| |vs| != 1 && AllTokens(vs) == stream.tokens;
      CanonicalIs(vs, true, finite);
    }
  }

  lemma OneValue(v: Tree)
    ensures AllTokens([v]) == Tokens(v)
  {
    hide Tokens;
    assert [v][1..] == [];
    assert AllTokens([]) == [];
    assert Tokens(v) + [] == Tokens(v);
  }

  /** Canonicalising keeps the value, and doing it twice is doing it once. */
  lemma CanonicalTwice(raw: string, stream: Stream, again: Stream, finite: string -> bool)
    requires DecodedAs(raw, stream) && CanonicalOf(stream, finite).Some?
    requires DecodedAs(CanonicalOf(stream, finite).value, again)
    ensures CanonicalOf(again, finite) == CanonicalOf(stream, finite)
    ensures ReadText(CanonicalOf(stream, finite).value) == ReadText(raw)
  {
    hide ReadValue, CanonicalOf, DecodedAs, Height, AllFinite, Printed;
    CanonicalOfText(raw, stream, finite);
    ReadIsNumbered(raw);
    var v := ReadText(raw).value;
    CanonicalReadsBack(v);
    CanonicalOfText(Printed(v), again, finite);
  }

  /** Two accepted texts have the same canonical form exactly when they hold the same value. */
  lemma SameFormSameValue(a: string, b: string, aStream: Stream, bStream: Stream, finite: string -> bool)
    requires DecodedAs(a, aStream) && CanonicalOf(aStream, finite).Some?
    requires DecodedAs(b, bStream) && CanonicalOf(bStream, finite).Some?
    ensures CanonicalOf(aStream, finite) == CanonicalOf(bStream, finite) <==> ReadText(a) == ReadText(b)
  {
    hide ReadValue, CanonicalOf, DecodedAs, Height, AllFinite, Printed;
    CanonicalOfText(a, aStream, finite);
    CanonicalOfText(b, bStream, finite);
    ReadIsNumbered(a);
    ReadIsNumbered(b);
    CanonicalReadsBack(ReadText(a).value);
    CanonicalReadsBack(ReadText(b).value);
  }
}
