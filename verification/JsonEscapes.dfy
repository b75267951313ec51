/** Validity under RFC 8259 does not depend on how a `<` or `&` inside a string literal is spelled. So what the stream
    shows is never malformed for the batch reader (dsml/stream.go:45-49). */
module JsonEscapes {
  import opened Text
  import opened ToolText
  import opened Markup
  import opened Calls
  import opened Grammar
  import opened Phases
  import opened Completion
  import opened DecoderState
  import opened Canonical
  import opened JsonText
  import opened EventsVsMessage

  const LESS := "\\u003c"

  /** What may follow a value in an object or a list, or nothing. */
  predicate Follows(m: string) {
    m == "" || m[0] == ',' || m[0] == '}'
  }

  /** `e` is `u` with some `<` and `&` spelled out, and `m` behind it. */
  predicate Widens(e: string, u: string, m: string)
    decreases |u|
  {
    if u == "" then e == m
    else
      || (e != "" && e[0] == u[0] && Widens(e[1..], u[1..], m))
      || (u[0] == '<' && "&lt;" <= e && Widens(e[4..], u[1..], m))
      || (u[0] == '&' && "&amp;" <= e && Widens(e[5..], u[1..], m))
      || (u[0] == '<' && LESS <= e && Widens(e[|LESS|..], u[1..], m))
  }

  predicate Spelled(c: char) {
    c == '<' || c == '&'
  }

  // ----- outside strings nothing is spelled out -----

  /** Both texts go on alike behind their first `n` bytes. */
  predicate Same(e: string, u: string, n: nat, m: string) {
    n <= |e| && n <= |u| && Widens(e[n..], u[n..], m)
  }

  lemma SameThen(e: string, u: string, n: nat, k: nat, m: string)
    requires Same(e, u, n, m) && Same(e[n..], u[n..], k, m)
    ensures Same(e, u, n + k, m)
  {
    hide Widens;
    assert e[n..][k..] == e[n + k..] && u[n..][k..] == u[n + k..];
  }

  lemma SameAll(e: string, u: string, m: string)
    requires Widens(e, u, m)
    ensures Same(e, u, 0, m)
  {
    hide Widens;
    assert e[0..] == e && u[0..] == u;
  }

  /** A byte that is never spelled out begins both texts or neither. */
  lemma FirstWidens(e: string, u: string, m: string)
    requires Follows(m) && Widens(e, u, m)
    ensures u != "" && !Spelled(u[0]) ==> e != "" && e[0] == u[0] && Same(e, u, 1, m)
    ensures e != "" && e[0] !in "&\\,}" ==> u != "" && e[0] == u[0]
    ensures u == "" ==> e == m
  {}

  lemma {:induction false} FrontWidens(e: string, u: string, n: nat, m: string)
    requires Widens(e, u, m) && n <= |u| && forall k :: 0 <= k < n ==> !Spelled(u[k])
    ensures Same(e, u, n, m) && e[..n] == u[..n]
  {
    SameAll(e, u, m);
    if n > 0 {
      assert !Spelled(u[0]);
      assert forall k :: 0 <= k < n - 1 ==> u[1..][k] == u[k + 1];
      FrontWidens(e[1..], u[1..], n - 1, m);
      SameThen(e, u, 1, n - 1, m);
      assert e == [e[0]] + e[1..];
    }
  }

  lemma {:induction false} FrontNarrows(e: string, u: string, n: nat, m: string)
    requires Follows(m) && Widens(e, u, m) && n <= |e| && forall k :: 0 <= k < n ==> e[k] !in "&\\,}"
    ensures Same(e, u, n, m) && e[..n] == u[..n]
  {
    hide Widens;
    SameAll(e, u, m);
    if n > 0 {
      FirstNarrows(e, u, m);
      assert forall k :: 0 <= k < n - 1 ==> e[1..][k] == e[k + 1];
      FrontNarrows(e[1..], u[1..], n - 1, m);
      SameThen(e, u, 1, n - 1, m);
      assert e == [e[0]] + e[1..];
    }
  }

  lemma FirstNarrows(e: string, u: string, m: string)
    requires Follows(m) && Widens(e, u, m) && e != "" && e[0] !in "&\\,}"
    ensures u != "" && e[0] == u[0] && Same(e, u, 1, m)
  {}

  lemma {:induction false} SkipWidens(e: string, u: string, m: string)
    requires Follows(m) && Widens(e, u, m)
    ensures Widens(SkipWs(e), SkipWs(u), m)
    decreases |u|
  {
    if u != "" && (u[0] == ' ' || u[0] == '\t' || u[0] == '\n' || u[0] == '\r') {
      SkipWidens(e[1..], u[1..], m);
    }
  }

  lemma {:induction false} DigitsWiden(e: string, u: string, m: string)
    requires Follows(m) && Widens(e, u, m)
    ensures Digits(e) == Digits(u) && Same(e, u, Digits(u), m)
    decreases |u|
  {
    FirstWidens(e, u, m);
    SameAll(e, u, m);
    if u != "" && IsDigit(u[0]) {
      DigitsWiden(e[1..], u[1..], m);
      SameThen(e, u, 1, Digits(u[1..]), m);
    }
  }

  lemma IntWidens(e: string, u: string, m: string)
    requires Follows(m) && Widens(e, u, m)
    ensures IntLen(e) == IntLen(u) && Same(e, u, IntLen(u), m)
  {
    hide Digits, Same, Widens;
    FirstWidens(e, u, m);
    DigitsWiden(e, u, m);
  }

  lemma FracWidens(e: string, u: string, m: string)
    requires Follows(m) && Widens(e, u, m)
    ensures FracLen(e) == FracLen(u) && Same(e, u, FracLen(u), m)
  {
    hide Digits, Widens;
    FirstWidens(e, u, m);
    SameAll(e, u, m);
    if u != "" && u[0] == '.' {
      DigitsWiden(e[1..], u[1..], m);
      SameThen(e, u, 1, Digits(u[1..]), m);
    }
  }

  lemma ExpWidens(e: string, u: string, m: string)
    requires Follows(m) && Widens(e, u, m)
    ensures ExpLen(e) == ExpLen(u) && Same(e, u, ExpLen(u), m)
  {
    hide Digits, Widens;
    FirstWidens(e, u, m);
    SameAll(e, u, m);
    if u != "" && (u[0] == 'e' || u[0] == 'E') {
      FirstWidens(e[1..], u[1..], m);
      var sign := if |u| > 1 && (u[1] == '+' || u[1] == '-') then 2 else 1;
      if sign == 2 {
        SameThen(e, u, 1, 1, m);
      }
      DigitsWiden(e[sign..], u[sign..], m);
      SameThen(e, u, sign, Digits(u[sign..]), m);
    }
  }

  lemma NumberWidens(e: string, u: string, m: string)
    requires Follows(m) && Widens(e, u, m)
    ensures NumberLen(e) == NumberLen(u) && Same(e, u, NumberLen(u), m)
  {
    hide IntLen, FracLen, ExpLen, NumberLen, Widens, Same;
    FirstWidens(e, u, m);
    SameAll(e, u, m);
    PartsWiden(e, u, if u != "" && u[0] == '-' then 1 else 0, m);
    NumberIs(e);
    NumberIs(u);
  }

  lemma PartsWiden(e: string, u: string, sign: nat, m: string)
    requires Follows(m) && Same(e, u, sign, m)
    ensures var i := IntLen(u[sign..]);
            var f := FracLen(u[sign + i..]);
            && i == IntLen(e[sign..]) && sign + i <= |e| && f == FracLen(e[sign + i..]) && sign + i + f <= |e|
            && ExpLen(e[sign + i + f..]) == ExpLen(u[sign + i + f..])
            && Same(e, u, sign + i + f + ExpLen(u[sign + i + f..]), m)
  {
    hide IntLen, FracLen, ExpLen, Widens;
    IntWidens(e[sign..], u[sign..], m);
    var n := sign + IntLen(u[sign..]);
    SameThen(e, u, sign, IntLen(u[sign..]), m);
    FracWidens(e[n..], u[n..], m);
    var f := FracLen(u[n..]);
    SameThen(e, u, n, f, m);
    ExpWidens(e[n + f..], u[n + f..], m);
    SameThen(e, u, n + f, ExpLen(u[n + f..]), m);
  }

  lemma NumberIs(s: string)
    ensures var sign := if s != "" && s[0] == '-' then 1 else 0;
            var i := IntLen(s[sign..]);
            var f := FracLen(s[sign + i..]);
            NumberLen(s) == if i == 0 then 0 else sign + i + f + ExpLen(s[sign + i + f..])
  {
    hide IntLen, FracLen, ExpLen;
  }

  // ----- strings -----

  lemma CodeUnitWidens(e: string, u: string, m: string)
    requires Follows(m) && Widens(e, u, m)
    ensures CodeUnit(e) == CodeUnit(u) && (CodeUnit(u).Some? ==> Same(e, u, 4, m))
  {
    hide Widens;
    if CodeUnit(u).Some? {
      FrontWidens(e, u, 4, m);
      assert forall k :: 0 <= k < 4 ==> e[k] == e[..4][k];
    } else if CodeUnit(e).Some? {
      FrontNarrows(e, u, 4, m);
      assert forall k :: 0 <= k < 4 ==> u[k] == u[..4][k];
    }
  }

  /** The second half of a surrogate pair. */
  predicate LowHalf(s: string) {
    "\\u" <= s && CodeUnit(s[2..]).Some? && 0xDC00 <= CodeUnit(s[2..]).value < 0xE000
  }

  lemma LowHalfWidens(e: string, u: string, m: string)
    requires Follows(m) && Widens(e, u, m)
    ensures LowHalf(e) <==> LowHalf(u)
    ensures LowHalf(u) ==> CodeUnit(e[2..]) == CodeUnit(u[2..]) && Same(e, u, 6, m)
  {
    hide CodeUnit;
    if "\\u" <= u {
      FrontWidens(e, u, 2, m);
      CodeUnitWidens(e[2..], u[2..], m);
      if CodeUnit(u[2..]).Some? {
        SameThen(e, u, 2, 4, m);
      }
    } else if LESS <= e {
      LessIsLow(e);
    }
  }

  lemma LessIsLow(e: string)
    requires LESS <= e
    ensures CodeUnit(e[2..]) == Some(0x3c) && e[0] == '\\' && Unescaped(e[1..]) == Got("<", e[|LESS|..])
  {
    assert e == LESS + e[|LESS|..];
    assert e[2..] == "003c" + e[|LESS|..] && e[1..][1..] == e[2..] && e[1..][5..] == e[|LESS|..];
  }

  lemma UnescapedWidens(e: string, u: string, m: string)
    requires Follows(m) && Widens(e, u, m) && Unescaped(u).Got?
    ensures Unescaped(e).Got? && Widens(Unescaped(e).rest, Unescaped(u).rest, m)
  {
    hide CodeUnit, Widens, Utf8;
    FirstWidens(e, u, m);
    CodeUnitWidens(e[1..], u[1..], m);
    if u[0] == 'u' {
      SameThen(e, u, 1, 4, m);
      LowHalfWidens(e[5..], u[5..], m);
      if LowHalf(u[5..]) {
        assert e[5..][6..] == e[11..] && u[5..][6..] == u[11..];
      }
    }
  }

  lemma {:induction false} PlainChars(w: string, s: string, read: string)
    requires w <= s && forall i :: 0 <= i < |w| ==> w[i] >= ' ' && w[i] != '"' && w[i] != '\\'
    ensures ReadChars(s, read) == ReadChars(s[|w|..], read + w)
    decreases |w|
  {
    if w == "" {
      assert s[0..] == s && read + w == read;
    } else {
      assert s[0] == w[0] && s[1..][|w| - 1..] == s[|w|..] && read + [w[0]] + w[1..] == read + w;
      PlainChars(w[1..], s[1..], read + [w[0]]);
    }
  }

  /** A string literal ends where it ended. */
  lemma {:induction false} CharsWiden(e: string, u: string, q: string, r: string, m: string)
    requires Follows(m) && Widens(e, u, m) && ReadChars(u, r).Got?
    ensures ReadChars(e, q).Got? && Widens(ReadChars(e, q).rest, ReadChars(u, r).rest, m)
    decreases |u|
  {
    hide Unescaped;
    if u[0] == '"' {
    } else if u[0] == '\\' {
      UnescapedWidens(e[1..], u[1..], m);
      var a, b := Unescaped(e[1..]), Unescaped(u[1..]);
      CharsWiden(a.rest, b.rest, q + a.value, r + b.value, m);
    } else if e != "" && e[0] == u[0] && Widens(e[1..], u[1..], m) {
      CharsWiden(e[1..], u[1..], q + [e[0]], r + [u[0]], m);
    } else if LESS <= e && Widens(e[|LESS|..], u[1..], m) {
      LessIsLow(e);
      CharsWiden(e[|LESS|..], u[1..], q + "<", r + [u[0]], m);
    } else {
      var w := if u[0] == '<' then "&lt;" else "&amp;";
      PlainChars(w, e, q);
      CharsWiden(e[|w|..], u[1..], q + w, r + [u[0]], m);
    }
  }

  // ----- values -----

  lemma NumberFirst(s: string)
    ensures NumberLen(s) > 0 ==> s != "" && (s[0] == '-' || IsDigit(s[0]))
  {
    hide FracLen, ExpLen;
    assert s[0..] == s;
  }

  lemma WordWidens(e: string, u: string, w: string, m: string)
    requires Widens(e, u, m) && w <= u && forall k :: 0 <= k < |w| ==> !Spelled(w[k])
    ensures w <= e && Widens(e[|w|..], u[|w|..], m)
  {
    hide Widens;
    assert forall k :: 0 <= k < |w| ==> u[k] == w[k];
    FrontWidens(e, u, |w|, m);
    assert u[..|w|] == w;
  }

  /** Valid as it is, valid with its `<` and `&` spelled out. */
  lemma {:induction false} ValueWidens(e: string, u: string, m: string)
    requires Follows(m) && Widens(e, u, m) && ReadValue(u).Got?
    ensures ReadValue(e).Got? && Widens(ReadValue(e).rest, ReadValue(u).rest, m)
    decreases |u|, 2
  {
    hide Widens, NumberLen, ReadChars, ReadItems, ReadMembers, SkipWs;
    SkipWidens(e, u, m);
    var a, t := SkipWs(e), SkipWs(u);
    NumberFirst(t);
    FirstWidens(a, t, m);
    if t[0] == '"' {
      CharsWiden(a[1..], t[1..], "", "", m);
    } else if t[0] == '[' {
      ItemsWiden(a[1..], t[1..], true, m);
    } else if t[0] == '{' {
      MembersWiden(a[1..], t[1..], true, m);
    } else if "null" <= t {
      WordWidens(a, t, "null", m);
    } else if "true" <= t {
      WordWidens(a, t, "true", m);
    } else if "false" <= t {
      WordWidens(a, t, "false", m);
    } else {
      NumberWidens(a, t, m);
    }
  }

  lemma {:induction false} ItemsWiden(e: string, u: string, first: bool, m: string)
    requires Follows(m) && Widens(e, u, m) && ReadItems(u, first).Got?
    ensures ReadItems(e, first).Got? && Widens(ReadItems(e, first).rest, ReadItems(u, first).rest, m)
    decreases |u|, 3
  {
    hide Widens, ReadValue, SkipWs;
    SkipWidens(e, u, m);
    var a, t := SkipWs(e), SkipWs(u);
    FirstWidens(a, t, m);
    if t[0] != ']' {
      var x, y := if first then a else a[1..], if first then t else t[1..];
      ValueWidens(x, y, m);
      ItemsWiden(ReadValue(x).rest, ReadValue(y).rest, false, m);
    }
  }

  lemma KeyWidens(e: string, u: string, m: string)
    requires Follows(m) && Widens(e, u, m) && ReadKey(u).Got?
    ensures ReadKey(e).Got? && Widens(ReadKey(e).rest, ReadKey(u).rest, m)
  {
    hide Widens, ReadChars, SkipWs;
    SkipWidens(e, u, m);
    var a, t := SkipWs(e), SkipWs(u);
    FirstWidens(a, t, m);
    CharsWiden(a[1..], t[1..], "", "", m);
    var x, y := ReadChars(a[1..], "").rest, ReadChars(t[1..], "").rest;
    SkipWidens(x, y, m);
    FirstWidens(SkipWs(x), SkipWs(y), m);
  }

  lemma {:induction false} MembersWiden(e: string, u: string, first: bool, m: string)
    requires Follows(m) && Widens(e, u, m) && ReadMembers(u, first).Got?
    ensures ReadMembers(e, first).Got? && Widens(ReadMembers(e, first).rest, ReadMembers(u, first).rest, m)
    decreases |u|, 3
  {
    hide Widens, ReadKey, ReadValue, SkipWs;
    SkipWidens(e, u, m);
    var a, t := SkipWs(e), SkipWs(u);
    FirstWidens(a, t, m);
    if t[0] != '}' {
      var x, y := if first then a else a[1..], if first then t else t[1..];
      KeyWidens(x, y, m);
      ValueWidens(ReadKey(x).rest, ReadKey(y).rest, m);
      MembersWiden(ReadValue(ReadKey(x).rest).rest, ReadValue(ReadKey(y).rest).rest, false, m);
    }
  }

  /** A text with one value is read as one value with its `<` and `&` spelled out, and in front of what may follow. */
  lemma TextWidens(e: string, u: string, m: string)
    requires Follows(m) && Widens(e, u, m) && ReadText(u).Some?
    ensures ReadValue(e).Got? && SkipWs(ReadValue(e).rest) == m
  {
    hide Widens, ReadValue, SkipWs;
    ValueWidens(e, u, m);
    SkipWidens(ReadValue(e).rest, ReadValue(u).rest, m);
    FirstWidens(SkipWs(ReadValue(e).rest), SkipWs(ReadValue(u).rest), m);
  }

  // ----- arguments as the two readers record them -----

  lemma {:induction false} UnescapingNarrows(s: string, end: string)
    requires end != ""
    ensures Widens(s, Unescape(s, end), "")
    decreases |s|
  {
    hide EscapedClose;
    if s != "" {
      UnescapingNarrows(s[UnescapedByte(s, end).1..], end);
      ByteNarrows(s, end);
      var b := UnescapedByte(s, end);
      assert ([b.0] + Unescape(s[b.1..], end))[1..] == Unescape(s[b.1..], end);
    }
  }

  lemma ByteNarrows(s: string, end: string)
    requires end != "" && s != ""
    ensures var b := UnescapedByte(s, end);
            || (b == (s[0], 1)) || (b == ('<', 4) && "&lt;" <= s) || (b == ('&', 5) && "&amp;" <= s)
  {
    AfterAmpsLength(s[1..]);
    if "&" <= s && !("amp;" <= s[1..]) && "lt;" <= s[1..] {
      assert s[..4] == "&" + s[1..][..3];
    }
    if "&" <= s && "amp;" <= s[1..] {
      assert s[..5] == "&" + s[1..][..4];
    }
  }

  lemma {:induction false} WidensConcat(a: string, b: string, c: string, d: string, m: string)
    requires Widens(a, b, "") && Widens(c, d, m)
    ensures Widens(a + c, b + d, m)
    decreases |b|
  {
    if b == "" {
      assert a + c == c && b + d == d;
    } else {
      DropAppend(b, d, 1);
      var k := if a != "" && a[0] == b[0] && Widens(a[1..], b[1..], "") then 1
               else if LESS <= a && Widens(a[|LESS|..], b[1..], "") then |LESS| else if b[0] == '<' then 4 else 5;
      DropAppend(a, c, k);
      WidensConcat(a[k..], b[1..], c, d, m);
    }
  }

  lemma {:induction false} WidensSelf(s: string)
    ensures Widens(s, s, "")
  {
    if s != "" {
      WidensSelf(s[1..]);
    }
  }

  predicate ArgsWiden(a: Args, b: Args) {
    |a| == |b| && forall i :: 0 <= i < |a| ==> a[i].0 == b[i].0 && Widens(a[i].1, b[i].1, "")
  }

  lemma {:induction false} SetWidens(a: Args, b: Args, key: string, v: string, w: string)
    requires ArgsWiden(a, b) && Widens(v, w, "")
    ensures ArgsWiden(SetArg(a, key, v), SetArg(b, key, w))
  {
    hide Widens;
    if a != [] && a[0].0 != key {
      SetWidens(a[1..], b[1..], key, v, w);
    }
  }

  lemma {:induction false} CollectWidens(json: Json, tag: string, ps: seq<Param>)
    requires AllRecorded(tag, ps)
    ensures ArgsWiden(Collect(json, ps, false), Collect(json, ps, true))
  {
    hide Widens, SetArg, ArgsWiden;
    if ps == [] {
      NoArgsWiden();
    } else {
      var n := |ps| - 1;
      CollectWidens(json, tag, ps[..n]);
      var v, w := Fragment(json, ps[n], false), Fragment(json, ps[n], true);
      WidensSelf(v);
      if tag != "" {
        UnescapingNarrows(ps[n].text, tag);
      }
      SetWidens(Collect(json, ps[..n], false), Collect(json, ps[..n], true), ps[n].key, v, w);
    }
  }

  lemma NoArgsWiden()
    ensures ArgsWiden([], [])
  {}

  lemma {:induction false} EntriesWiden(json: Json, a: Args, b: Args)
    requires ArgsWiden(a, b)
    ensures Widens(Entries(json, a), Entries(json, b), "")
  {
    hide Widens;
    if a == [] {
      WidensSelf("");
    } else {
      var n := |a| - 1;
      WidensSelf(json.quote(a[n].0) + ": ");
      WidensConcat(json.quote(a[n].0) + ": ", json.quote(b[n].0) + ": ", a[n].1, b[n].1, "");
      if n > 0 {
        EntriesWiden(json, a[..n], b[..n]);
        WidensSelf(", ");
        WidensConcat(Entries(json, a[..n]), Entries(json, b[..n]), ", ", ", ", "");
        WidensConcat(Entries(json, a[..n]) + ", ", Entries(json, b[..n]) +
            ", ", Entry(json, a[n]), Entry(json, b[n]), "");
      }
    }
  }

  lemma ArgumentsWiden(json: Json, tag: string, ps: seq<Param>)
    requires AllRecorded(tag, ps)
    ensures Widens(Arguments(json, ps, false), Arguments(json, ps, true), "")
  {
    hide Widens, Entries, Collect, ArgsWiden;
    var a, b := Collect(json, ps, false), Collect(json, ps, true);
    CollectWidens(json, tag, ps);
    EntriesWiden(json, a, b);
    WidensSelf("{");
    WidensSelf("}");
    WidensConcat("{", "{", Entries(json, a), Entries(json, b), "");
    WidensConcat("{" + Entries(json, a), "{" + Entries(json, b), "}", "}", "");
  }

  // ----- the promise -----

  /** A library whose validity check is that of RFC 8259, whatever its string writer. */
  function StandardJson(quote: string -> string): Json {
    Json(s => ReadText(s).Some?, quote)
  }

  lemma EscapesAreTextIn(quote: string -> string)
    ensures EscapesAreText(StandardJson(quote))
  {
    hide Arguments, AllRecorded, ReadValue, SkipWs, IsCloseTag;
    var json := StandardJson(quote);
    forall tag, ps | IsCloseTag(tag) && AllRecorded(tag, ps) && json.valid(Arguments(json, ps, true))
      ensures json.valid(Arguments(json, ps, false))
    {
      ArgumentsWiden(json, tag, ps);
      TextWidens(Arguments(json, ps, false), Arguments(json, ps, true), "");
    }
  }

  /** With the validity check of RFC 8259, tool events are never shown for a message without calls: the message has
      the calls they name. */
  lemma ShownIsReturned(d: Reader, quote: string -> string, t: string, events: seq<Event>)
    requires d.json == StandardJson(quote) && Shows(d, events, Decide(d, t)) && ToolsOf(events) != []
    ensures var m := ParseCompletion(d, t, false);
            Decide(d, t).calls.Some? && m.malformed == None &&
                Tells(d.json, ValueTag(d, t), ToolsOf(events), Decide(d, t).calls.value, m.calls)
  {
    hide Decide, ParseCompletion, ToolsOf, Shows, Tells, EscapesAreText, ValueTag;
    EscapesAreTextIn(quote);
    ShownIsNeverMalformed(d, t, events);
  }
}
