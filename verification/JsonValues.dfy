/** What a JSON text means under RFC 8259 does not depend on how a `<` inside its strings is spelled
    (dsml/encode.go:204-212), nor on what may follow it in an object. */
module JsonValues {
  import opened Text
  import opened Canonical
  import opened JsonText
  import opened JsonEscapes

  /** `e` is `u` with some `<` spelled as a JSON escape, and `m` behind it. */
  predicate Respells(e: string, u: string, m: string)
    decreases |u|
  {
    if u == "" then e == m
    else
      || (e != "" && e[0] == u[0] && Respells(e[1..], u[1..], m))
      || (u[0] == '<' && LESS <= e && Respells(e[|LESS|..], u[1..], m))
  }

  lemma {:induction false} RespellingWidens(e: string, u: string, m: string)
    requires Respells(e, u, m)
    ensures Widens(e, u, m)
    decreases |u|
  {
    if u != "" {
      if e != "" && e[0] == u[0] && Respells(e[1..], u[1..], m) {
        RespellingWidens(e[1..], u[1..], m);
      } else {
        RespellingWidens(e[|LESS|..], u[1..], m);
      }
    }
  }

  lemma {:induction false} RespellsSelf(u: string, m: string)
    ensures Respells(u + m, u, m)
  {
    if u == "" {
      assert u + m == m;
    } else {
      DropAppend(u, m, 1);
      RespellsSelf(u[1..], m);
    }
  }

  lemma {:induction false} RespellsConcat(a: string, b: string, c: string, d: string, m: string)
    requires Respells(a, b, "") && Respells(c, d, m)
    ensures Respells(a + c, b + d, m)
    decreases |b|
  {
    if b == "" {
      assert a + c == c && b + d == d;
    } else {
      DropAppend(b, d, 1);
      var k := if a != "" && a[0] == b[0] && Respells(a[1..], b[1..], "") then 1 else |LESS|;
      DropAppend(a, c, k);
      RespellsConcat(a[k..], b[1..], c, d, m);
    }
  }

  // ----- what is not spelled out is the same -----

  lemma {:induction false} FrontSame(e: string, u: string, n: nat, m: string)
    requires Respells(e, u, m) && n <= |u| && forall k :: 0 <= k < n ==> u[k] != '<'
    ensures n <= |e| && e[..n] == u[..n] && Respells(e[n..], u[n..], m)
  {
    assert e[0..] == e && u[0..] == u;
    if n > 0 {
      assert u[0] != '<';
      assert forall k :: 0 <= k < n - 1 ==> u[1..][k] == u[k + 1];
      FrontSame(e[1..], u[1..], n - 1, m);
      assert e == [e[0]] + e[1..] && e[1..][n - 1..] == e[n..] && u[1..][n - 1..] == u[n..];
    }
  }

  lemma {:induction false} SkipRespells(e: string, u: string, m: string)
    requires Respells(e, u, m) && SkipWs(u) != ""
    ensures Respells(SkipWs(e), SkipWs(u), m) && SkipWs(e) != ""
    ensures SkipWs(u)[0] != '<' ==> SkipWs(e)[0] == SkipWs(u)[0]
    decreases |u|
  {
    if u[0] == ' ' || u[0] == '\t' || u[0] == '\n' || u[0] == '\r' {
      SkipRespells(e[1..], u[1..], m);
    }
  }

  lemma {:induction false} DigitsAreDigits(s: string)
    ensures forall k :: 0 <= k < Digits(s) ==> s[k] != '<'
  {
    if s != "" && IsDigit(s[0]) {
      DigitsAreDigits(s[1..]);
      assert forall k :: 0 < k < Digits(s) ==> s[k] == s[1..][k - 1];
    }
  }

  lemma DigitsFrom(s: string, n: nat)
    requires n <= |s|
    ensures forall k :: n <= k < n + Digits(s[n..]) ==> s[k] != '<'
  {
    DigitsAreDigits(s[n..]);
    assert forall k :: n <= k < n + Digits(s[n..]) ==> s[k] == s[n..][k - n];
  }

  /** A number holds no `<`. */
  lemma NumberPlain(s: string)
    ensures forall k :: 0 <= k < NumberLen(s) ==> s[k] != '<'
  {
    hide IntLen, FracLen, ExpLen, NumberLen;
    NumberIs(s);
    var sign := if s != "" && s[0] == '-' then 1 else 0;
    var i := IntLen(s[sign..]);
    if i > 0 {
      IntPlain(s[sign..]);
      assert forall k :: sign <= k < sign + i ==> s[k] == s[sign..][k - sign];
      var f := FracLen(s[sign + i..]);
      FracPlain(s[sign + i..]);
      assert forall k :: sign + i <= k < sign + i + f ==> s[k] == s[sign + i..][k - sign - i];
      var x := ExpLen(s[sign + i + f..]);
      ExpPlain(s[sign + i + f..]);
      assert forall k :: sign + i + f <= k < sign + i + f + x ==> s[k] == s[sign + i + f..][k - sign - i - f];
    }
  }

  lemma IntPlain(s: string)
    ensures forall k :: 0 <= k < IntLen(s) ==> s[k] != '<'
  {
    hide Digits;
    DigitsAreDigits(s);
  }

  lemma FracPlain(s: string)
    ensures forall k :: 0 <= k < FracLen(s) ==> s[k] != '<'
  {
    hide Digits;
    if FracLen(s) > 0 {
      DigitsFrom(s, 1);
    }
  }

  lemma ExpPlain(s: string)
    ensures forall k :: 0 <= k < ExpLen(s) ==> s[k] != '<'
  {
    hide Digits;
    if ExpLen(s) > 0 {
      DigitsFrom(s, if |s| > 1 && (s[1] == '+' || s[1] == '-') then 2 else 1);
    }
  }

  lemma NumberSame(e: string, u: string, m: string)
    requires Follows(m) && Respells(e, u, m)
    ensures var n := NumberLen(u); NumberLen(e) == n && n <= |e| && e[..n] == u[..n] && Respells(e[n..], u[n..], m)
  {
    hide NumberLen, Respells;
    RespellingWidens(e, u, m);
    NumberWidens(e, u, m);
    NumberPlain(u);
    FrontSame(e, u, NumberLen(u), m);
  }

  // ----- strings -----

  lemma CodeUnitSame(e: string, u: string, m: string)
    requires Follows(m) && Respells(e, u, m)
    ensures CodeUnit(e) == CodeUnit(u)
    ensures CodeUnit(u).Some? ==> |e| >= 4 && Respells(e[4..], u[4..], m)
  {
    hide Respells;
    RespellingWidens(e, u, m);
    CodeUnitWidens(e, u, m);
    if CodeUnit(u).Some? {
      FrontSame(e, u, 4, m);
    }
  }

  lemma UnescapedSame(e: string, u: string, m: string)
    requires Follows(m) && Respells(e, u, m) && Unescaped(u).Got?
    ensures Unescaped(e).Got? && Unescaped(e).value == Unescaped(u).value
    ensures Respells(Unescaped(e).rest, Unescaped(u).rest, m)
  {
    hide CodeUnit, Utf8, Widens;
    FrontSame(e, u, 1, m);
    if u[0] == 'u' {
      CodeUnitSame(e[1..], u[1..], m);
      assert e[1..][4..] == e[5..] && u[1..][4..] == u[5..];
      RespellingWidens(e[5..], u[5..], m);
      LowHalfWidens(e[5..], u[5..], m);
      if LowHalf(u[5..]) {
        FrontSame(e[5..], u[5..], 2, m);
        CodeUnitSame(e[5..][2..], u[5..][2..], m);
        assert e[5..][2..][4..] == e[11..] && u[5..][2..][4..] == u[11..];
        assert e[5..][6..] == e[11..] && u[5..][6..] == u[11..];
      }
    }
  }

  /** A string literal has the same text. */
  lemma {:induction false} CharsSame(e: string, u: string, read: string, m: string)
    requires Follows(m) && Respells(e, u, m) && ReadChars(u, read).Got?
    ensures ReadChars(e, read).Got? && ReadChars(e, read).value == ReadChars(u, read).value
    ensures Respells(ReadChars(e, read).rest, ReadChars(u, read).rest, m)
    decreases |u|
  {
    hide Unescaped;
    if u[0] == '"' {
    } else if u[0] == '\\' {
      UnescapedSame(e[1..], u[1..], m);
      var b := Unescaped(u[1..]);
      CharsSame(Unescaped(e[1..]).rest, b.rest, read + b.value, m);
    } else if e != "" && e[0] == u[0] && Respells(e[1..], u[1..], m) {
      CharsSame(e[1..], u[1..], read + [u[0]], m);
    } else {
      LessIsLow(e);
      CharsSame(e[|LESS|..], u[1..], read + [u[0]], m);
      assert [u[0]] == "<";
    }
  }

  // ----- values -----

  lemma WordSame(e: string, u: string, w: string, m: string)
    requires Respells(e, u, m) && w <= u && forall k :: 0 <= k < |w| ==> w[k] != '<'
    ensures w <= e && Respells(e[|w|..], u[|w|..], m)
  {
    hide Respells;
    assert forall k :: 0 <= k < |w| ==> u[k] == w[k];
    FrontSame(e, u, |w|, m);
    assert u[..|w|] == w;
  }

  lemma {:induction false} ValueSame(e: string, u: string, m: string)
    requires Follows(m) && Respells(e, u, m) && ReadValue(u).Got?
    ensures ReadValue(e).Got? && ReadValue(e).value == ReadValue(u).value
    ensures Respells(ReadValue(e).rest, ReadValue(u).rest, m)
    decreases |u|, 2
  {
    hide Respells, NumberLen, ReadChars, ReadItems, ReadMembers, SkipWs;
    SkipRespells(e, u, m);
    var a, t := SkipWs(e), SkipWs(u);
    NumberFirst(t);
    FrontSame(a, t, 1, m);
    if t[0] == '"' {
      CharsSame(a[1..], t[1..], "", m);
    } else if t[0] == '[' {
      ItemsSame(a[1..], t[1..], true, m);
    } else if t[0] == '{' {
      MembersSame(a[1..], t[1..], true, m);
    } else if "null" <= t {
      WordSame(a, t, "null", m);
    } else if "true" <= t {
      WordSame(a, t, "true", m);
    } else if "false" <= t {
      WordSame(a, t, "false", m);
    } else {
      NumberSame(a, t, m);
    }
  }

  lemma {:induction false} ItemsSame(e: string, u: string, first: bool, m: string)
    requires Follows(m) && Respells(e, u, m) && ReadItems(u, first).Got?
    ensures ReadItems(e, first).Got? && ReadItems(e, first).value == ReadItems(u, first).value
    ensures Respells(ReadItems(e, first).rest, ReadItems(u, first).rest, m)
    decreases |u|, 3
  {
    hide Respells, ReadValue, SkipWs;
    SkipRespells(e, u, m);
    var a, t := SkipWs(e), SkipWs(u);
    if t[0] == ']' {
      FrontSame(a, t, 1, m);
    } else {
      if !first {
        FrontSame(a, t, 1, m);
      } else {
        SkipTwice(u);
        StartsAlike(a, t, m);
      }
      var x, y := if first then a else a[1..], if first then t else t[1..];
      ValueSame(x, y, m);
      ItemsSame(ReadValue(x).rest, ReadValue(y).rest, false, m);
    }
  }

  lemma {:induction false} SkipTwice(u: string)
    ensures SkipWs(SkipWs(u)) == SkipWs(u)
  {
    if u != "" && SkipWs(u) != u {
      SkipTwice(u[1..]);
    }
  }

  /** A value does not begin with `<`, so a closing bracket begins both or neither. */
  lemma StartsAlike(a: string, t: string, m: string)
    requires Respells(a, t, m) && t != "" && ReadValue(t).Got? && SkipWs(t) == t
    ensures a != "" && a[0] == t[0]
  {
    hide ReadChars, ReadItems, ReadMembers, SkipWs;
    NumberFirst(t);
  }

  lemma KeySame(e: string, u: string, m: string)
    requires Follows(m) && Respells(e, u, m) && ReadKey(u).Got?
    ensures ReadKey(e).Got? && ReadKey(e).value == ReadKey(u).value
    ensures Respells(ReadKey(e).rest, ReadKey(u).rest, m)
  {
    hide Respells, ReadChars, SkipWs;
    SkipRespells(e, u, m);
    var a, t := SkipWs(e), SkipWs(u);
    FrontSame(a, t, 1, m);
    CharsSame(a[1..], t[1..], "", m);
    var x, y := ReadChars(a[1..], "").rest, ReadChars(t[1..], "").rest;
    SkipRespells(x, y, m);
    FrontSame(SkipWs(x), SkipWs(y), 1, m);
  }

  lemma {:induction false} MembersSame(e: string, u: string, first: bool, m: string)
    requires Follows(m) && Respells(e, u, m) && ReadMembers(u, first).Got?
    ensures ReadMembers(e, first).Got? && ReadMembers(e, first).value == ReadMembers(u, first).value
    ensures Respells(ReadMembers(e, first).rest, ReadMembers(u, first).rest, m)
    decreases |u|, 3
  {
    hide Respells, ReadKey, ReadValue, SkipWs;
    SkipRespells(e, u, m);
    var a, t := SkipWs(e), SkipWs(u);
    if t[0] == '}' {
      FrontSame(a, t, 1, m);
    } else {
      if !first {
        FrontSame(a, t, 1, m);
      } else {
        SkipTwice(u);
        KeyStartsAlike(a, t, m);
      }
      var x, y := if first then a else a[1..], if first then t else t[1..];
      KeySame(x, y, m);
      ValueSame(ReadKey(x).rest, ReadKey(y).rest, m);
      MembersSame(ReadValue(ReadKey(x).rest).rest, ReadValue(ReadKey(y).rest).rest, false, m);
    }
  }

  lemma KeyStartsAlike(a: string, t: string, m: string)
    requires Respells(a, t, m) && t != "" && ReadKey(t).Got? && SkipWs(t) == t
    ensures a != "" && a[0] == t[0]
  {
    hide ReadChars, SkipWs;
  }

  /** The value of a text stays the same however its `<` are spelled, and in front of what may follow. */
  lemma TextSame(e: string, u: string, m: string)
    requires Follows(m) && Respells(e, u, m) && ReadText(u).Some?
    ensures ReadValue(e).Got? && ReadValue(e).value == ReadText(u).value && SkipWs(ReadValue(e).rest) == m
  {
    hide Respells, ReadValue, SkipWs, Widens;
    ValueSame(e, u, m);
    RespellingWidens(e, u, m);
    TextWidens(e, u, m);
  }
}
