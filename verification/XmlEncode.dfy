/** GLM and Qwen calls: the writers, and what they write reads back (dsml/glm.go, dsml/qwen.go). */
module XmlEncode {
  import opened Text
  import opened ToolText
  import opened Markup
  import opened Calls
  import opened Grammar
  import opened Phases
  import opened Transitions
  import opened Decode
  import opened XmlDecode
  import opened Encode

  /** The text of a value: neither dialect marks strings. */
  function PlainValue(v: Value): string {
    match v
    case Str(s) => s
    case Null => ""
    case Literal(s) => s
  }

  // ----- trimming and escaping -----

  /** The bytes too near the end to hold a close tag are written as they are. */
  lemma {:induction false} EscapeKeepsTail(s: string, end: string, k: nat)
    requires IsCloseTag(end) && k <= |s| && k + 1 < |end|
    ensures |Escape(s, end)| >= k && Escape(s, end)[|Escape(s, end)| - k..] == s[|s| - k..]
  {
    hide Escape, EscapedByte, IsCloseTag;
    if |s| > k {
      EscapeKeepsTail(s[1..], end, k);
      EscapeOnce(s, end);
      TailKept(EscapedByte(s, end), Escape(s[1..], end), k);
      assert s[1..][|s| - 1 - k..] == s[|s| - k..];
    } else {
      ShortEscape(s, end);
      assert k == |s| && s[|s| - k..] == s;
    }
  }

  lemma EscapeOnce(s: string, end: string)
    requires IsCloseTag(end) && s != ""
    ensures Escape(s, end) == EscapedByte(s, end) + Escape(s[1..], end)
  {
    hide EscapedByte;
  }

  lemma TailKept(h: string, e: string, k: nat)
    requires k <= |e|
    ensures (h + e)[|h + e| - k..] == e[|e| - k..]
  {}

  lemma {:induction false} ShortEscape(s: string, end: string)
    requires IsCloseTag(end) && |s| + 1 < |end|
    ensures Escape(s, end) == s
  {
    if s != "" {
      ShortTail(s, end);
      ShortEscape(s[1..], end);
    }
  }

  lemma ShortTail(s: string, end: string)
    requires IsCloseTag(end) && s != "" && |s| + 1 < |end|
    ensures EscapedByte(s, end) == [s[0]]
  {
    RewrittenBeforeTail(s, end);
    assert forall j :: 0 < j <= |s| ==> |s[j..]| < |end[1..]|;
  }

  /** Escaping a trimmed text leaves it trimmed. */
  lemma EscapeStaysTrimmed(s: string, end: string)
    requires IsCloseTag(end) && |end| > 4 && Trimmed(s)
    ensures Trimmed(Escape(s, end))
  {
    if s != "" {
      EscapeFront(s, end);
      EscapeBack(s, end);
    } else {
      assert Escape(s, end) == "";
    }
  }

  lemma EscapeFront(s: string, end: string)
    requires IsCloseTag(end) && s != "" && SpaceAt(s) == 0
    ensures SpaceAt(Escape(s, end)) == 0
  {
    hide WellFormed;
    var e := Escape(s, end);
    var t := s[1..];
    if EscapedByte(s, end) == [s[0]] {
      assert e == [s[0]] + Escape(t, end);
      if t != "" && EscapedByte(t, end) == [t[0]] {
        assert e[1..] == [t[0]] + Escape(t[1..], end);
        assert e[1] == s[1];
        var u := t[1..];
        if u != "" {
          assert u[0] == s[2];
          assert e[2..] == Escape(u, end) && Escape(u, end)[0] == EscapedByte(u, end)[0];
          assert e[2] == EscapedByte(u, end)[0];
        }
      } else if t != "" {
        assert e[1..] == Escape(t, end) && e[1] == EscapedByte(t, end)[0] == '&';
      }
    } else {
      assert e[0] == '&';
    }
  }

  lemma EscapeBack(s: string, end: string)
    requires IsCloseTag(end) && |end| > 4 && s != "" && SpaceEnding(s) == 0
    ensures SpaceEnding(Escape(s, end)) == 0
  {
    hide Escape;
    var e := Escape(s, end);
    var k := if |s| >= 3 then 3 else |s|;
    EscapeKeepsTail(s, end, k);
    SameTail(e, s, k);
    if |s| < 3 {
      ShortEscape(s, end);
    }
  }

  lemma SameTail(e: string, s: string, k: nat)
    requires k <= |e| && k <= |s| && e[|e| - k..] == s[|s| - k..]
    ensures k >= 1 ==> e[|e| - 1] == s[|s| - 1]
    ensures k >= 2 ==> e[|e| - 2] == s[|s| - 2]
    ensures k >= 3 ==> e[|e| - 3] == s[|s| - 3]
  {
    var t := e[|e| - k..];
    assert k >= 1 ==> t[k - 1] == e[|e| - 1] && t[k - 1] == s[|s| - 1];
    assert k >= 2 ==> t[k - 2] == e[|e| - 2] && t[k - 2] == s[|s| - 2];
    assert k >= 3 ==> t[k - 3] == e[|e| - 3] && t[k - 3] == s[|s| - 3];
  }

  // ----- GLM -----

  function GlmPair(x: XmlSyntax, a: Argument): string {
    x.keyStart + Escape(a.key, x.keyEnd) + x.keyEnd + x.valueStart + Escape(PlainValue(a.value), x.valueEnd) +
        x.valueEnd
  }

  function GlmPairs(x: XmlSyntax, pairs: seq<Argument>): string {
    if pairs == [] then x.callEnd else GlmPair(x, pairs[0]) + GlmPairs(x, pairs[1..])
  }

  /** The calls of a run, the first one's `<tool_call>` included. */
  function GlmText(x: XmlSyntax, cs: seq<Request>): string {
    if cs == [] then "" else x.callStart + cs[0].name + GlmPairs(x, ObjectPairs(cs[0].input)) + GlmText(x, cs[1..])
  }

  function ObjectPairs(input: Input): seq<Argument> {
    if input.Object? then input.pairs else []
  }

  /** `renderGLMToolCalls` accepts a call: an object of arguments, valid names. */
  predicate GlmRenderable(c: Request) {
    ValidAttribute(c.name) && c.input.Object? && RenderablePairs(c.input.pairs)
  }

  /** `renderGLMToolCalls`. */
  method RenderGlmToolCalls(x: XmlSyntax, cs: seq<Request>) returns (r: Option<string>)
    ensures r == if forall i :: 0 <= i < |cs| ==> GlmRenderable(cs[i]) then Some(GlmText(x, cs)) else None
  {
    hide XmlWellFormed, GlmPairs, Escape, RenderablePairs;
    var b := "";
    var i := 0;
    while i < |cs|
      invariant 0 <= i <= |cs|
      invariant forall k :: 0 <= k < i ==> GlmRenderable(cs[k])
      invariant b + GlmText(x, cs[i..]) == GlmText(x, cs)
    {
      var c := cs[i];
      if !ValidAttribute(c.name) || !c.input.Object? {
        return None;
      }
      var pairs := RenderGlmPairs(x, c.input.pairs);
      if pairs == None {
        return None;
      }
      assert cs[i..][1..] == cs[i + 1..];
      Glued(b, x.callStart + c.name + pairs.value, GlmText(x, cs[i + 1..]));
      b := b + (x.callStart + c.name + pairs.value);
      i := i + 1;
    }
    assert cs[i..] == [];
    assert GlmText(x, cs[i..]) == "" && b + "" == b;
    return Some(b);
  }

  lemma Glued(b: string, p: string, r: string)
    ensures b + (p + r) == b + p + r
  {}

  /** The arguments of a call and its close tag. */
  method RenderGlmPairs(x: XmlSyntax, pairs: seq<Argument>) returns (r: Option<string>)
    ensures r == if RenderablePairs(pairs) then Some(GlmPairs(x, pairs)) else None
  {
    hide XmlWellFormed, Escape;
    XmlCloseTags(x);
    var b := "";
    var i := 0;
    while i < |pairs|
      invariant 0 <= i <= |pairs|
      invariant forall k :: 0 <= k < i ==> ValidAttribute(pairs[k].key)
      invariant b + GlmPairs(x, pairs[i..]) == GlmPairs(x, pairs)
    {
      var p := pairs[i];
      if !ValidAttribute(p.key) {
        return None;
      }
      var key := EscapeToolText(p.key, x.keyEnd);
      var value := EscapeToolText(PlainValue(p.value), x.valueEnd);
      assert pairs[i..][1..] == pairs[i + 1..];
      Glued(b, GlmPair(x, p), GlmPairs(x, pairs[i + 1..]));
      b := b + (x.keyStart + key + x.keyEnd + x.valueStart + value + x.valueEnd);
      i := i + 1;
    }
    assert pairs[i..] == [];
    return Some(b + x.callEnd);
  }

  /** How a pair reads back: every value is a string. */
  function GlmRead(a: Argument): Param {
    Param(a.key, PlainValue(a.value), PlainValue(a.value), true)
  }

  function GlmReads(pairs: seq<Argument>): (ps: seq<Param>)
    ensures |ps| == |pairs|
  {
    if pairs == [] then [] else [GlmRead(pairs[0])] + GlmReads(pairs[1..])
  }

  predicate TrimmedKeys(pairs: seq<Argument>) {
    forall i :: 0 <= i < |pairs| ==> pairs[i].key != "" && Trimmed(pairs[i].key)
  }

  /** Close tags longer than any white space character, without a line break. */
  predicate LongTags(x: XmlSyntax) {
    |x.keyEnd| > 4 && '\n' !in x.paramEnd
  }

  lemma FormsAreLong()
    ensures LongTags(XmlForms())
  {}

  lemma GlmKeyReads(x: XmlSyntax, key: string, rest: string)
    requires LongTags(x) && key != "" && Trimmed(key) && SkipSpace(rest) == rest
    ensures var r := x.keyStart + Escape(key, x.keyEnd) + x.keyEnd + rest;
            KeyComplete(x, r) && KeyText(x, r) == key && AfterKey(x, r) == rest && !(x.callEnd <= r)
  {
    hide Escape, Unescape, TrimSpace, SkipSpace, XmlWellFormed, Index;
    XmlCloseTags(x);
    var e := Escape(key, x.keyEnd);
    var r := x.keyStart + e + x.keyEnd + rest;
    var body := e + x.keyEnd + rest;
    assert r == x.keyStart + body && r[|x.keyStart|..] == body;
    EscapedBodyStaysOpen(key, x.keyEnd);
    FirstCloseEndsBody(e, x.keyEnd, rest);
    assert body[..|e|] == e && body[|e| + |x.keyEnd|..] == rest;
    EscapeStaysTrimmed(key, x.keyEnd);
    TrimmedStays(e);
    RoundTrip(key, x.keyEnd);
    KeyIs(x, r);
    KeyIsNoEnd(x, body);
  }

  lemma KeyIsNoEnd(x: XmlSyntax, body: string)
    ensures !(x.callEnd <= x.keyStart + body)
  {
    ApartIsFinal(x.keyStart, x.keyStart, x.callEnd, body);
  }

  lemma GlmPairReads(x: XmlSyntax, a: Argument, calls: seq<Call>, name: string, ps: seq<Param>, rest: string)
    requires LongTags(x) && a.key != "" && Trimmed(a.key)
    ensures GlmArgs(x, GlmPair(x, a) + rest, calls, name, ps) == GlmArgs(x, rest, calls, name, ps + [GlmRead(a)])
  {
    hide GlmArgs, GlmValue, KeyComplete, KeyText, AfterKey, Escape, XmlWellFormed, SkipSpace;
    XmlCloseTags(x);
    var v := Escape(PlainValue(a.value), x.valueEnd);
    var tail := x.valueStart + (v + x.valueEnd + rest);
    var r := x.keyStart + Escape(a.key, x.keyEnd) + x.keyEnd + tail;
    assert GlmPair(x, a) + rest == r;
    ValueTagFirst(x, v + x.valueEnd + rest);
    GlmKeyReads(x, a.key, tail);
    GlmKeySteps(x, calls, name, ps, r);
    assert tail[|x.valueStart|..] == v + x.valueEnd + rest;
    GlmWrittenValue(x, a, calls, name, ps, rest);
  }

  lemma ValueTagFirst(x: XmlSyntax, s: string)
    ensures SkipSpace(x.valueStart + s) == x.valueStart + s && x.valueStart <= x.valueStart + s
  {
    assert (x.valueStart + s)[0] == '<';
  }

  lemma GlmWrittenValue(x: XmlSyntax, a: Argument, calls: seq<Call>, name: string, ps: seq<Param>, rest: string)
    ensures GlmValue(x, Escape(PlainValue(a.value), x.valueEnd) + x.valueEnd + rest, calls, name, ps, a.key)
         == GlmArgs(x, rest, calls, name, ps + [GlmRead(a)])
  {
    hide GlmArgs, Escape, Unescape, XmlWellFormed, Index;
    XmlCloseTags(x);
    var s := PlainValue(a.value);
    var e := Escape(s, x.valueEnd);
    var r := e + x.valueEnd + rest;
    EscapedBodyStaysOpen(s, x.valueEnd);
    FirstCloseEndsBody(e, x.valueEnd, rest);
    RoundTrip(s, x.valueEnd);
    assert r[..|e|] == e && r[|e| + |x.valueEnd|..] == rest;
  }

  lemma {:induction false} GlmPairsRead(x: XmlSyntax, pairs: seq<Argument>, calls: seq<Call>, name: string,
          ps: seq<Param>, rest: string)
    requires LongTags(x) && TrimmedKeys(pairs)
    ensures GlmArgs(x, GlmPairs(x, pairs) + rest, calls, name, ps) ==
            GlmAfter(x, rest, calls + [Call(name, ps + GlmReads(pairs))])
  {
    hide GlmArgs, GlmAfter, GlmPair, XmlWellFormed;
    if pairs == [] {
      assert ps + GlmReads([]) == ps;
      var r := x.callEnd + rest;
      assert r[|x.callEnd|..] == rest;
      GlmCallSteps(x, r, calls, name, ps);
    } else {
      var tail := GlmPairs(x, pairs[1..]) + rest;
      assert GlmPairs(x, pairs) + rest == GlmPair(x, pairs[0]) + tail;
      GlmPairReads(x, pairs[0], calls, name, ps, tail);
      GlmPairsRead(x, pairs[1..], calls, name, ps + [GlmRead(pairs[0])], rest);
      assert ps + [GlmRead(pairs[0])] + GlmReads(pairs[1..]) == ps + GlmReads(pairs);
    }
  }

  /** A name that reads back: trimmed, and free of `<`. */
  predicate GlmReadable(c: Request) {
    c.name != "" && Trimmed(c.name) && '<' !in c.name && TrimmedKeys(ObjectPairs(c.input))
  }

  lemma GlmNameReads(x: XmlSyntax, c: Request, calls: seq<Call>, rest: string)
    requires LongTags(x) && GlmReadable(c)
    ensures GlmName(x, c.name + GlmPairs(x, ObjectPairs(c.input)) + rest, calls)
         == GlmAfter(x, rest, calls + [Call(c.name, GlmReads(ObjectPairs(c.input)))])
  {
    hide GlmName, GlmArgs, GlmAfter, GlmPairs, XmlWellFormed, TrimSpace, Index;
    var pairs := ObjectPairs(c.input);
    var tail := GlmPairs(x, pairs) + rest;
    var r := c.name + tail;
    assert c.name + GlmPairs(x, pairs) + rest == r;
    GlmPairsStart(x, pairs, rest);
    BareName(c.name, tail);
    TrimmedStays(c.name);
    assert r[..|c.name|] == c.name && r[|c.name|..] == tail;
    GlmNameSteps(x, r, calls);
    GlmPairsRead(x, pairs, calls, c.name, [], rest);
    assert [] + GlmReads(pairs) == GlmReads(pairs);
  }

  lemma BareName(name: string, tail: string)
    requires '<' !in name && tail != "" && tail[0] == '<'
    ensures Index(name + tail, "<") == |name|
  {
    var r := name + tail;
    assert r[|name|..] == tail;
    assert "<" <= tail by {
      assert tail[..1] == "<";
    }
    forall j | 0 <= j < |name| ensures !("<" <= r[j..]) {
      assert r[j..][0] == name[j];
    }
    IndexIs(r, "<", |name|);
  }

  lemma GlmPairsStart(x: XmlSyntax, pairs: seq<Argument>, rest: string)
    ensures var t := GlmPairs(x, pairs) + rest; t != "" && t[0] == '<' && (x.keyStart <= t || x.callEnd <= t)
  {
    hide GlmPair;
    if pairs != [] {
      PairStart(x, pairs[0]);
      TagFront(x.keyStart, GlmPair(x, pairs[0]), GlmPairs(x, pairs[1..]) + rest);
      assert GlmPairs(x, pairs) + rest == GlmPair(x, pairs[0]) + (GlmPairs(x, pairs[1..]) + rest);
    } else {
      TagFront(x.callEnd, x.callEnd, rest);
    }
  }

  lemma PairStart(x: XmlSyntax, a: Argument)
    ensures x.keyStart <= GlmPair(x, a)
  {
    hide Escape;
    var p := GlmPair(x, a);
    assert p[..|x.keyStart|] == x.keyStart;
  }

  lemma TagFront(tag: string, p: string, rest: string)
    requires tag != "" && tag <= p
    ensures tag <= p + rest && (p + rest)[0] == tag[0] && p + rest != ""
  {
    assert (p + rest)[..|tag|] == p[..|tag|];
  }

  function GlmCalls(cs: seq<Request>): (r: seq<Call>)
    ensures |r| == |cs|
  {
    if cs == [] then [] else [Call(cs[0].name, GlmReads(ObjectPairs(cs[0].input)))] + GlmCalls(cs[1..])
  }

  /** Written calls read back, one after the other, whatever follows that opens no further call. */
  lemma {:induction false} GlmRoundTrip(x: XmlSyntax, cs: seq<Request>, calls: seq<Call>, rest: string)
    requires LongTags(x) && (forall i :: 0 <= i < |cs| ==> GlmReadable(cs[i])) && !(x.callStart <= SkipSpace(rest))
    ensures GlmAfter(x, GlmText(x, cs) + rest, calls) == Closed(calls + GlmCalls(cs), rest)
  {
    hide GlmName, GlmAfter, GlmPairs, XmlWellFormed, SkipSpace, GlmReads, GlmReadable;
    if cs == [] {
      assert GlmText(x, cs) + rest == rest;
      assert calls + GlmCalls(cs) == calls;
      GlmAfterSteps(x, rest, calls);
    } else {
      var c := cs[0];
      var body := c.name + GlmPairs(x, ObjectPairs(c.input));
      var tail := GlmText(x, cs[1..]) + rest;
      assert GlmText(x, cs) + rest == x.callStart + (body + tail);
      CallTagFirst(x, body + tail);
      GlmAfterSteps(x, x.callStart + (body + tail), calls);
      assert (x.callStart + (body + tail))[|x.callStart|..] == body + tail;
      GlmNameReads(x, c, calls, tail);
      var read := Call(c.name, GlmReads(ObjectPairs(c.input)));
      GlmRoundTrip(x, cs[1..], calls + [read], rest);
      assert calls + [read] + GlmCalls(cs[1..]) == calls + GlmCalls(cs);
    }
  }

  lemma CallTagFirst(x: XmlSyntax, s: string)
    ensures SkipSpace(x.callStart + s) == x.callStart + s && x.callStart <= x.callStart + s
  {
    assert (x.callStart + s)[0] == '<';
  }

  /** How GLM and Qwen record parameters: alike for both readers, and under keys without white space around them. */
  predicate XmlParams(x: XmlSyntax, ps: seq<Param>) {
    forall i :: 0 <= i < |ps| ==> ps[i].live == ps[i].text && (LongTags(x) ==> ps[i].key != "" && Trimmed(ps[i].key))
  }

  predicate XmlCalls(x: XmlSyntax, calls: seq<Call>) {
    forall i :: 0 <= i < |calls| ==> XmlParams(x, calls[i].params)
  }

  /** A further call is read behind those there, and recorded that way, like any behind it. */
  predicate Names(x: XmlSyntax, s: Scan, calls: seq<Call>, name: string) {
    s.Closed? ==>
      && |calls| < |s.calls| && calls <= s.calls && s.calls[|calls|].name == name
      && (XmlCalls(x, calls) ==> XmlCalls(x, s.calls))
  }

  lemma OneMoreParam(x: XmlSyntax, ps: seq<Param>, p: Param)
    requires XmlParams(x, ps) && p.live == p.text && p.key != "" && (LongTags(x) ==> Trimmed(p.key))
    ensures XmlParams(x, ps + [p])
  {}

  lemma OneMoreCall(x: XmlSyntax, calls: seq<Call>, read: Call)
    requires XmlParams(x, read.params)
    ensures XmlCalls(x, calls) ==> XmlCalls(x, calls + [read])
    ensures (calls + [read])[|calls|] == read
  {
    hide XmlParams;
  }

  // ----- reading leaves trimmed text trimmed -----

  lemma UnescapeStaysTrimmed(s: string, end: string)
    requires |end| > 4 && Trimmed(s)
    ensures Trimmed(Unescape(s, end))
  {
    hide Unescape;
    UnescapeFront(s, end);
    var k := if |s| >= 3 then 3 else |s|;
    UnescapeKeepsTail(s, end, k);
    SameTail(Unescape(s, end), s, k);
    if |s| < 3 {
      ShortUnescape(s, end);
    }
  }

  lemma {:induction false} ShortUnescape(s: string, end: string)
    requires end != "" && |s| < 3 + |end|
    ensures Unescape(s, end) == s
  {
    hide EscapedClose;
    EscapedCloseIsLong(s, end);
    if s != "" {
      ShortUnescape(s[1..], end);
    }
  }

  lemma EscapedCloseIsLong(s: string, end: string)
    requires end != ""
    ensures EscapedClose(s, end) ==> |s| >= 3 + |end| && UnescapedByte(s, end).1 + |end| <= |s| + 1
  {
    if EscapedClose(s, end) {
      AfterAmpsLength(s[1..]);
      if "&amp;" <= s {
        assert "amp;" <= s[1..] by {
          assert s[1..][..4] == s[..5][1..];
        }
        assert s[1..][4..] == s[5..];
        AfterAmpsLength(s[5..]);
      }
    }
  }

  lemma UnescapeFront(s: string, end: string)
    requires end != "" && SpaceAt(s) == 0
    ensures SpaceAt(Unescape(s, end)) == 0
  {
    hide EscapedClose, SpaceAt, Unescape, UnescapedByte;
    var e := Unescape(s, end);
    if s == "" {
      ShortUnescape(s, end);
    } else {
      FirstByte(s, end);
      if s[1..] != "" {
        FirstByte(s[1..], end);
        if s[2..] != "" {
          FirstByte(s[2..], end);
          assert s[1..][1..] == s[2..];
        }
      }
      ShortUnescape("", end);
      NoSpaceInFront(e, s);
    }
  }

  predicate Angular(c: char) {
    c == '<' || c == '&'
  }

  /** White space is told by its first three bytes. */
  lemma NoSpaceInFront(e: string, s: string)
    requires SpaceAt(s) == 0 && s != "" && e != "" && (Angular(e[0]) || e[0] == s[0])
    requires !Angular(e[0]) && |e| > 1 ==> |s| > 1 && (Angular(e[1]) || e[1] == s[1])
    requires !Angular(e[0]) && |e| > 2 && !Angular(e[1]) ==> |s| > 2 && (Angular(e[2]) || e[2] == s[2])
    ensures SpaceAt(e) == 0
  {}

  lemma FirstByte(s: string, end: string)
    requires end != "" && s != ""
    ensures var e := Unescape(s, end); e != "" && (Angular(e[0]) || (e[0] == s[0] && e[1..] == Unescape(s[1..], end)))
  {
    hide EscapedClose;
  }

  lemma {:induction false} UnescapeKeepsTail(s: string, end: string, k: nat)
    requires k + 1 < |end| && k <= |s|
    ensures |Unescape(s, end)| >= k && Unescape(s, end)[|Unescape(s, end)| - k..] == s[|s| - k..]
    decreases |s|
  {
    hide EscapedClose;
    EscapedCloseIsLong(s, end);
    if |s| > k {
      var b := UnescapedByte(s, end);
      UnescapeKeepsTail(s[b.1..], end, k);
      TailKept([b.0], Unescape(s[b.1..], end), k);
      assert s[b.1..][|s| - b.1 - k..] == s[|s| - k..];
    } else {
      ShortUnescape(s, end);
    }
  }


  lemma {:induction false} GlmAfterKeeps(x: XmlSyntax, r: string, calls: seq<Call>)
    ensures var s := GlmAfter(x, r, calls);
            s.Closed? ==> calls <= s.calls && (XmlCalls(x, calls) ==> XmlCalls(x, s.calls))
    decreases |r|, 3
  {
    hide GlmArgs, SkipSpace, XmlWellFormed, Index, TrimSpace, Partial, XmlCalls;
    XmlTagsNonEmpty(x);
    var t := SkipSpace(r);
    if x.callStart <= t {
      var u := t[|x.callStart|..];
      var lt := Index(u, "<");
      if lt >= 0 {
        GlmArgsName(x, u[lt..], calls, TrimSpace(u[..lt]), []);
      }
    }
  }

  /** The call being read is the next one, under the name it was opened with. */
  lemma {:induction false} GlmArgsName(x: XmlSyntax, r: string, calls: seq<Call>, name: string, ps: seq<Param>)
    requires XmlParams(x, ps)
    ensures Names(x, GlmArgs(x, r, calls, name, ps), calls, name)
    decreases |r|, 1
  {
    hide GlmArgs, GlmAfter, GlmValue, KeyComplete, KeyText, AfterKey, XmlWellFormed, XmlParams, XmlCalls, LongTags;
    XmlTagsNonEmpty(x);
    GlmArgsCases(x, r, calls, name, ps);
    if x.callEnd <= r {
      OneMoreCall(x, calls, Call(name, ps));
      GlmAfterKeeps(x, r[|x.callEnd|..], calls + [Call(name, ps)]);
    } else if KeyComplete(x, r) {
      GlmKeySteps(x, calls, name, ps, r);
      KeyIsTrimmed(x, r);
      if KeyText(x, r) != "" && x.valueStart <= AfterKey(x, r) {
        GlmValueName(x, AfterKey(x, r)[|x.valueStart|..], calls, name, ps, KeyText(x, r));
      }
    }
  }

  lemma KeyIsTrimmed(x: XmlSyntax, r: string)
    requires KeyComplete(x, r)
    ensures LongTags(x) ==> Trimmed(KeyText(x, r))
  {
    hide Trimmed, Unescape, TrimSpace, Index, XmlWellFormed;
    var raw := r[|x.keyStart|..][..Index(r[|x.keyStart|..], x.keyEnd)];
    TrimIsTrimmed(raw);
    if LongTags(x) {
      UnescapeStaysTrimmed(TrimSpace(raw), x.keyEnd);
    }
  }

  lemma GlmArgsCases(x: XmlSyntax, r: string, calls: seq<Call>, name: string, ps: seq<Param>)
    ensures x.callEnd <= r ==> GlmArgs(x, r, calls, name, ps) == GlmAfter(x, r[|x.callEnd|..], calls + [Call(name, ps)])
    ensures !(x.callEnd <= r) && !KeyComplete(x, r) ==> GlmArgs(x, r, calls, name, ps).Bad?
  {
    hide GlmAfter, GlmValue, Index, TrimSpace, SkipSpace, Unescape, Partial, XmlWellFormed;
  }

  lemma {:induction false} GlmValueName(x: XmlSyntax, r: string, calls: seq<Call>, name: string, ps: seq<Param>,
          key: string)
    requires XmlParams(x, ps) && key != "" && (LongTags(x) ==> Trimmed(key))
    ensures Names(x, GlmValue(x, r, calls, name, ps, key), calls, name)
    decreases |r|, 0
  {
    hide GlmArgs, Index, Unescape, XmlWellFormed, Trimmed, XmlParams, XmlCalls, LongTags;
    XmlTagsNonEmpty(x);
    var end := Index(r, x.valueEnd);
    if end >= 0 {
      var value := Unescape(r[..end], x.valueEnd);
      OneMoreParam(x, ps, Param(key, value, value, true));
      GlmArgsName(x, r[end + |x.valueEnd|..], calls, name, ps + [Param(key, value, value, true)]);
    }
  }

  /** The name a GLM call is read under is trimmed, not empty and without `<`. */
  lemma GlmNameIs(x: XmlSyntax, r: string, calls: seq<Call>)
    ensures var s := GlmName(x, r, calls);
            s.Closed? ==>
              && |calls| < |s.calls| && (XmlCalls(x, calls) ==> XmlCalls(x, s.calls))
              && var name := s.calls[|calls|].name; name != "" && Trimmed(name) && '<' !in name
  {
    hide GlmArgs, Index, TrimSpace, Partial, XmlWellFormed, Trimmed, XmlCalls;
    var lt := Index(r, "<");
    if lt >= 0 {
      GlmArgsName(x, r[lt..], calls, TrimSpace(r[..lt]), []);
      TrimIsTrimmed(r[..lt]);
      assert Index(r, "<") >= 0 ==> '<' !in r[..Index(r, "<")] by {
        IndexIsFirst(r, "<");
        forall j | 0 <= j < |r| ensures r[j] == '<' ==> "<" <= r[j..] {
          assert r[j..] != "" && r[j..][0] == '<' ==> "<" <= r[j..] by {
            if r[j..] != "" && r[j..][0] == '<' {
              assert r[j..][..1] == "<";
            }
          }
        }
      }
    }
  }

  lemma TrimIsTrimmed(s: string)
    ensures Trimmed(TrimSpace(s)) && ('<' !in s ==> '<' !in TrimSpace(s))
  {
    hide TrimLeft, TrimRight;
    var l := TrimLeft(s);
    TrimLeftIs(s);
    assert TrimRight(l) <= l;
  }

  /** A call that the writer accepts reads back exactly when its name has no white space around it and no `<`, and its
      keys have no white space around them; otherwise the name or a key comes back trimmed, or the call is refused. */
  lemma GlmReadsBack(x: XmlSyntax, c: Request)
    requires LongTags(x) && GlmRenderable(c)
    ensures GlmName(x, c.name + GlmPairs(x, ObjectPairs(c.input)), []) ==
            Closed([Call(c.name, GlmReads(ObjectPairs(c.input)))], "")
            <==> GlmReadable(c)
  {
    hide GlmName, GlmAfter, GlmPairs, GlmReads, XmlWellFormed, Trimmed;
    var pairs := ObjectPairs(c.input);
    var t := c.name + GlmPairs(x, pairs);
    var read := Call(c.name, GlmReads(pairs));
    KeysRead(pairs);
    if GlmReadable(c) {
      GlmNameReads(x, c, [], "");
      assert t + "" == t && [] + [read] == [read];
      NothingFollows(x, [read]);
    } else {
      GlmNameIs(x, t, []);
      assert [read][0] == read;
    }
  }

  lemma {:induction false} KeysRead(pairs: seq<Argument>)
    ensures forall i :: 0 <= i < |pairs| ==> GlmReads(pairs)[i].key == pairs[i].key
  {
    if pairs != [] {
      KeysRead(pairs[1..]);
    }
  }

  lemma NothingFollows(x: XmlSyntax, calls: seq<Call>)
    ensures GlmAfter(x, "", calls) == Closed(calls, "")
  {
    XmlTagsNonEmpty(x);
  }

  // ----- Qwen -----

  /** `qwenValidateName`. */
  predicate QwenName(s: string) {
    ValidAttribute(s) && '<' !in s && '>' !in s
  }

  function QwenPair(x: XmlSyntax, a: Argument): string {
    x.paramStart + a.key + ">\n" + Escape(PlainValue(a.value), x.paramEnd) + "\n" + x.paramEnd + "\n"
  }

  function QwenPairs(x: XmlSyntax, pairs: seq<Argument>): string {
    if pairs == [] then x.fnEnd + "\n" + x.callEnd else QwenPair(x, pairs[0]) + QwenPairs(x, pairs[1..])
  }

  function QwenOne(x: XmlSyntax, c: Request): string {
    x.callStart + "\n" + x.fnStart + c.name + ">\n" + QwenPairs(x, ObjectPairs(c.input))
  }

  /** Further calls, each on a new line. */
  function QwenMore(x: XmlSyntax, cs: seq<Request>): string {
    if cs == [] then "" else "\n" + QwenOne(x, cs[0]) + QwenMore(x, cs[1..])
  }

  function QwenText(x: XmlSyntax, cs: seq<Request>): string {
    if cs == [] then "" else QwenOne(x, cs[0]) + QwenMore(x, cs[1..])
  }

  predicate QwenRenderable(c: Request) {
    QwenName(c.name) && c.input.Object? && QwenNames(c.input.pairs)
  }

  predicate QwenNames(pairs: seq<Argument>) {
    forall i :: 0 <= i < |pairs| ==> QwenName(pairs[i].key)
  }

  /** What is still to be written from call `i` on. */
  function QwenRest(x: XmlSyntax, cs: seq<Request>, i: nat): string
    requires i <= |cs|
  {
    if i == 0 then QwenText(x, cs) else QwenMore(x, cs[i..])
  }

  lemma QwenRestSteps(x: XmlSyntax, cs: seq<Request>, i: nat)
    requires i < |cs|
    ensures QwenRest(x, cs, i) ==
            (if i > 0 then "\n" + QwenOne(x, cs[i]) else QwenOne(x, cs[i])) + QwenRest(x, cs, i + 1)
  {
    hide QwenOne;
    assert cs[i..][1..] == cs[i + 1..];
  }

  lemma QwenRestEnds(x: XmlSyntax, cs: seq<Request>, b: string)
    ensures QwenRest(x, cs, |cs|) == "" && b + "" == b && QwenRest(x, cs, 0) == QwenText(x, cs)
  {
    assert cs[|cs|..] == [];
  }

  /** `renderQwenToolCalls`. */
  method RenderQwenToolCalls(x: XmlSyntax, cs: seq<Request>) returns (r: Option<string>)
    ensures r == if forall i :: 0 <= i < |cs| ==> QwenRenderable(cs[i]) then Some(QwenText(x, cs)) else None
  {
    hide XmlWellFormed, QwenPairs, QwenText, QwenMore, QwenRest, Escape, QwenNames, QwenName;
    var b := "";
    var i := 0;
    QwenRestEnds(x, cs, "");
    assert "" + QwenText(x, cs) == QwenText(x, cs);
    while i < |cs|
      invariant 0 <= i <= |cs|
      invariant forall k :: 0 <= k < i ==> QwenRenderable(cs[k])
      invariant b + QwenRest(x, cs, i) == QwenText(x, cs)
    {
      var c := cs[i];
      if !QwenName(c.name) || !c.input.Object? {
        return None;
      }
      var pairs := RenderQwenPairs(x, c.input.pairs);
      if pairs == None {
        return None;
      }
      var one := x.callStart + "\n" + x.fnStart + c.name + ">\n" + pairs.value;
      var piece := if i > 0 then "\n" + one else one;
      QwenRestSteps(x, cs, i);
      Glued(b, piece, QwenRest(x, cs, i + 1));
      b := b + piece;
      i := i + 1;
    }
    QwenRestEnds(x, cs, b);
    return Some(b);
  }

  method RenderQwenPairs(x: XmlSyntax, pairs: seq<Argument>) returns (r: Option<string>)
    ensures r == if QwenNames(pairs) then Some(QwenPairs(x, pairs)) else None
  {
    hide XmlWellFormed, Escape, QwenName;
    XmlCloseTags(x);
    var b := "";
    var i := 0;
    while i < |pairs|
      invariant 0 <= i <= |pairs|
      invariant forall k :: 0 <= k < i ==> QwenName(pairs[k].key)
      invariant b + QwenPairs(x, pairs[i..]) == QwenPairs(x, pairs)
    {
      var p := pairs[i];
      if !QwenName(p.key) {
        return None;
      }
      var value := EscapeToolText(PlainValue(p.value), x.paramEnd);
      assert pairs[i..][1..] == pairs[i + 1..];
      Glued(b, QwenPair(x, p), QwenPairs(x, pairs[i + 1..]));
      b := b + (x.paramStart + p.key + ">\n" + value + "\n" + x.paramEnd + "\n");
      i := i + 1;
    }
    assert pairs[i..] == [];
    return Some(b + (x.fnEnd + "\n" + x.callEnd));
  }

  /** How a pair reads back: a value whose written text reads as JSON is a JSON value, any other the string it was. */
  function QwenRead(x: XmlSyntax, literal: string -> bool, a: Argument): Param {
    var e := Escape(PlainValue(a.value), x.paramEnd);
    if literal(e) then Param(a.key, TrimValue(e), TrimValue(e), false)
        else Param(a.key, PlainValue(a.value), PlainValue(a.value), true)
  }

  function QwenReads(x: XmlSyntax, literal: string -> bool, pairs: seq<Argument>): (ps: seq<Param>)
    ensures |ps| == |pairs|
  {
    if pairs == [] then [] else [QwenRead(x, literal, pairs[0])] + QwenReads(x, literal, pairs[1..])
  }

  predicate QwenReadablePairs(pairs: seq<Argument>) {
    forall i :: 0 <= i < |pairs| ==> QwenName(pairs[i].key) && Trimmed(pairs[i].key)
  }

  predicate QwenReadable(c: Request) {
    QwenName(c.name) && Trimmed(c.name) && QwenReadablePairs(ObjectPairs(c.input))
  }

  /** A head reads up to its `>`. */
  lemma HeadReads(name: string, rest: string)
    requires '<' !in name && '>' !in name
    ensures var r := name + ">" + rest;
            IndexAngle(r) == |name| && r[|name|] == '>' && r[..|name|] == name && r[|name| + 1..] == rest
  {
    var r := name + ">" + rest;
    assert forall j :: 0 <= j < |name| ==> r[j] == name[j];
    assert r[|name|] == '>';
    assert r[..|name|] == name && r[|name| + 1..] == rest;
  }

  /** A framed value holds no close tag. */
  lemma FramedStaysOpen(e: string, end: string)
    requires IsCloseTag(end) && '\n' !in end && !Contains(e, end)
    ensures !Contains("\n" + e + "\n", end)
  {
    var s := "\n" + e + "\n";
    IndexIsFirst(e, end);
    IndexIsFirst(s, end);
    forall j | 0 <= j <= |s| ensures !(end <= s[j..]) {
      if 1 <= j && j + |end| <= |e| + 1 {
        assert s[j..][..|end|] == e[j - 1..][..|end|];
        assert end <= s[j..] <==> end <= e[j - 1..];
      } else if j == 0 || j > |e| {
        assert j < |s| ==> s[j..][0] == '\n';
      } else {
        var k := |e| + 1 - j;
        assert s[j..][k] == '\n' && k < |end|;
        assert end[k] in end;
      }
    }
  }

  lemma QwenValueReads(x: XmlSyntax, literal: string -> bool, a: Argument, calls: seq<Call>, name: string,
          ps: seq<Param>, rest: string)
    requires LongTags(x)
    ensures QwenValue(x, literal, "\n" + Escape(PlainValue(a.value), x.paramEnd) + "\n" + x.paramEnd +
            rest, calls, name, ps, a.key)
         == QwenParams(x, literal, rest, calls, name, ps + [QwenRead(x, literal, a)])
  {
    hide QwenParams, Escape, Unescape, XmlWellFormed, Index, TrimValue;
    XmlCloseTags(x);
    var v := PlainValue(a.value);
    var e := Escape(v, x.paramEnd);
    var raw := "\n" + e + "\n";
    var r := raw + x.paramEnd + rest;
    EscapedBodyStaysOpen(v, x.paramEnd);
    FramedStaysOpen(e, x.paramEnd);
    FirstCloseEndsBody(raw, x.paramEnd, rest);
    RoundTrip(v, x.paramEnd);
    assert r[..|raw|] == raw && r[|raw| + |x.paramEnd|..] == rest;
    assert StripNewlines("\n" + e + "\n") == e by {
      var v := "\n" + e + "\n";
      assert v[1..] == e + "\n";
      assert (e + "\n")[..|e|] == e;
    }
    assert QwenParam(x, literal, a.key, raw) == QwenRead(x, literal, a);
  }

  lemma QwenPairReads(x: XmlSyntax, literal: string -> bool, a: Argument, calls: seq<Call>, name: string,
          ps: seq<Param>, rest: string)
    requires LongTags(x) && QwenName(a.key) && Trimmed(a.key)
    ensures QwenParams(x, literal, "\n" + QwenPair(x, a) + rest, calls, name, ps)
         == QwenParams(x, literal, "\n" + rest, calls, name, ps + [QwenRead(x, literal, a)])
  {
    hide QwenParams, QwenValue, Escape, XmlWellFormed, SkipSpace, TrimSpace, IndexAngle, Trimmed, QwenRead,
         QwenAtName, SpaceAt, SpaceEnding;
    XmlCloseTags(x);
    var body := "\n" + Escape(PlainValue(a.value), x.paramEnd) + "\n" + x.paramEnd + ("\n" + rest);
    var head := a.key + ">" + body;
    var r := x.paramStart + head;
    assert "\n" + QwenPair(x, a) + rest == "\n" + r;
    QwenTagSkipped(x, literal, head, calls, name, ps);
    HeadReads(a.key, body);
    TrimmedStays(a.key);
    QwenNamed(x, literal, "\n" + r, a.key, body, calls, name, ps);
    QwenValueReads(x, literal, a, calls, name, ps, "\n" + rest);
  }

  lemma QwenNamed(x: XmlSyntax, literal: string -> bool, r: string, key: string, body: string, calls: seq<Call>,
          name: string, ps: seq<Param>)
    requires var h := key + ">" + body;
             IndexAngle(h) == |key| && h[|key|] == '>' && h[..|key|] == key && h[|key| + 1..] == body
    requires TrimSpace(key) == key && key != ""
    ensures QwenAtName(x, literal, r, key + ">" + body, calls, name, ps) ==
            QwenValue(x, literal, body, calls, name, ps, key)
  {
    hide QwenValue, TrimSpace, IndexAngle;
  }

  /** A line break in front of a `<parameter=` is skipped. */
  lemma QwenTagSkipped(x: XmlSyntax, literal: string -> bool, head: string, calls: seq<Call>, name: string,
          ps: seq<Param>)
    ensures var r := x.paramStart + head;
            QwenParams(x, literal, "\n" + r, calls, name, ps) == QwenAtName(x, literal, "\n" + r, head, calls, name, ps)
  {
    hide QwenValue, QwenFnEnd, SkipSpace, TrimSpace, IndexAngle;
    var r := x.paramStart + head;
    BreakThenTag(r);
    ApartIsFinal(x.paramStart, x.paramStart, x.fnEnd, head);
    assert r[|x.paramStart|..] == head;
    QwenParamFound(x, literal, "\n" + r, r, calls, name, ps);
  }

  lemma QwenParamFound(x: XmlSyntax, literal: string -> bool, r: string, t: string, calls: seq<Call>, name: string,
          ps: seq<Param>)
    requires SkipSpace(r) == t && !(x.fnEnd <= t) && x.paramStart <= t
    ensures QwenParams(x, literal, r, calls, name, ps) ==
            QwenAtName(x, literal, r, t[|x.paramStart|..], calls, name, ps)
  {
    hide QwenValue, QwenFnEnd, SkipSpace, TrimSpace, IndexAngle, XmlWellFormed;
  }

  lemma BreakThenTag(r: string)
    requires r != "" && r[0] == '<'
    ensures SkipSpace("\n" + r) == r && SkipSpace(r) == r
  {
    assert ("\n" + r)[1..] == r;
  }

  lemma {:induction false} QwenPairsRead(x: XmlSyntax, literal: string -> bool, pairs: seq<Argument>,
          calls: seq<Call>, name: string, ps: seq<Param>, rest: string)
    requires LongTags(x) && QwenReadablePairs(pairs)
    ensures QwenParams(x, literal, "\n" + QwenPairs(x, pairs) + rest, calls, name, ps)
         == QwenAfter(x, literal, rest, calls + [Call(name, ps + QwenReads(x, literal, pairs))])
  {
    hide QwenParams, QwenAfter, QwenPair, XmlWellFormed, QwenRead, Trimmed, QwenName;
    if pairs == [] {
      assert ps + QwenReads(x, literal, []) == ps;
      assert "\n" + QwenPairs(x, pairs) + rest == "\n" + (x.fnEnd + ("\n" + (x.callEnd + rest)));
      QwenCloses(x, literal, calls, name, ps, rest);
    } else {
      var tail := QwenPairs(x, pairs[1..]) + rest;
      assert "\n" + QwenPairs(x, pairs) + rest == "\n" + QwenPair(x, pairs[0]) + tail;
      assert "\n" + tail == "\n" + QwenPairs(x, pairs[1..]) + rest;
      QwenPairReads(x, literal, pairs[0], calls, name, ps, tail);
      QwenPairsRead(x, literal, pairs[1..], calls, name, ps + [QwenRead(x, literal, pairs[0])], rest);
      assert ps + [QwenRead(x, literal, pairs[0])] + QwenReads(x, literal, pairs[1..]) ==
             ps + QwenReads(x, literal, pairs);
    }
  }

  lemma QwenCloses(x: XmlSyntax, literal: string -> bool, calls: seq<Call>, name: string, ps: seq<Param>, rest: string)
    ensures QwenParams(x, literal, "\n" + (x.fnEnd + ("\n" + (x.callEnd + rest))), calls, name, ps) ==
            QwenAfter(x, literal, rest, calls + [Call(name, ps)])
  {
    hide QwenAfter, SkipSpace, QwenParams, QwenFnEnd, XmlWellFormed;
    var a := "\n" + (x.callEnd + rest);
    var r := x.fnEnd + a;
    XmlCloseTags(x);
    BreakThenTag(r);
    assert r[|x.fnEnd|..] == a;
    QwenEndFound(x, literal, "\n" + r, r, calls, name, ps);
    BreakThenTag(x.callEnd + rest);
    assert (x.callEnd + rest)[|x.callEnd|..] == rest;
    QwenCloseSteps(x, literal, a, calls, name, ps);
  }

  lemma QwenEndFound(x: XmlSyntax, literal: string -> bool, r: string, t: string, calls: seq<Call>, name: string,
          ps: seq<Param>)
    requires SkipSpace(r) == t && x.fnEnd <= t
    ensures QwenParams(x, literal, r, calls, name, ps) == QwenFnEnd(x, literal, t[|x.fnEnd|..], calls, name, ps)
  {
    hide QwenValue, QwenFnEnd, SkipSpace, TrimSpace, IndexAngle, XmlWellFormed;
  }

  lemma QwenOneReads(x: XmlSyntax, literal: string -> bool, c: Request, calls: seq<Call>, rest: string)
    requires LongTags(x) && QwenReadable(c)
    ensures var r := QwenOne(x, c) + rest;
            && x.callStart <= r && SkipSpace(r) == r
            && QwenFn(x, literal, r[|x.callStart|..], calls) ==
               QwenAfter(x, literal, rest, calls + [QwenCall(x, literal, c)])
  {
    hide QwenFn, QwenAfter, QwenPairs, XmlWellFormed, SkipSpace, QwenCall, QwenReadable;
    var fn := x.fnStart + (c.name + ">" + ("\n" + QwenPairs(x, ObjectPairs(c.input)) + rest));
    var r := QwenOne(x, c) + rest;
    assert r == x.callStart + ("\n" + fn);
    CallTagFirst(x, "\n" + fn);
    assert r[|x.callStart|..] == "\n" + fn;
    QwenFnReads(x, literal, c, calls, rest);
  }

  /** From the line break after `<tool_call>` on. */
  lemma QwenFnReads(x: XmlSyntax, literal: string -> bool, c: Request, calls: seq<Call>, rest: string)
    requires LongTags(x) && QwenReadable(c)
    ensures QwenFn(x, literal, "\n" +
            (x.fnStart + (c.name + ">" + ("\n" + QwenPairs(x, ObjectPairs(c.input)) + rest))), calls)
         == QwenAfter(x, literal, rest, calls + [QwenCall(x, literal, c)])
  {
    hide QwenFn, QwenParams, QwenAfter, QwenPairs, XmlWellFormed, SkipSpace, TrimSpace, IndexAngle, Trimmed,
         QwenReadablePairs, QwenReads;
    var body := "\n" + QwenPairs(x, ObjectPairs(c.input)) + rest;
    var head := c.name + ">" + body;
    var fn := x.fnStart + head;
    FnTagFirst(x, head);
    HeadReads(c.name, body);
    TrimmedStays(c.name);
    QwenFnGood(x, literal, "\n" + fn, calls);
    assert fn[|x.fnStart|..] == head;
    QwenPairsRead(x, literal, ObjectPairs(c.input), calls, c.name, [], rest);
    assert [] + QwenReads(x, literal, ObjectPairs(c.input)) == QwenReads(x, literal, ObjectPairs(c.input));
  }

  lemma FnTagFirst(x: XmlSyntax, head: string)
    ensures SkipSpace("\n" + (x.fnStart + head)) == x.fnStart + head
  {
    BreakThenTag(x.fnStart + head);
  }

  function QwenCall(x: XmlSyntax, literal: string -> bool, c: Request): Call {
    Call(c.name, QwenReads(x, literal, ObjectPairs(c.input)))
  }

  function QwenCalls(x: XmlSyntax, literal: string -> bool, cs: seq<Request>): (r: seq<Call>)
    ensures |r| == |cs|
  {
    if cs == [] then [] else [QwenCall(x, literal, cs[0])] + QwenCalls(x, literal, cs[1..])
  }

  /** Written Qwen calls read back, one after the other. */
  lemma {:induction false} QwenRoundTrip(x: XmlSyntax, literal: string -> bool, cs: seq<Request>, calls: seq<Call>,
          rest: string)
    requires LongTags(x) && (forall i :: 0 <= i < |cs| ==> QwenReadable(cs[i])) && !(x.callStart <= SkipSpace(rest))
    ensures QwenAfter(x, literal, QwenMore(x, cs) + rest, calls) == Closed(calls + QwenCalls(x, literal, cs), rest)
  {
    hide QwenFn, QwenAfter, QwenOne, XmlWellFormed, SkipSpace, QwenCall, QwenReadable;
    if cs == [] {
      assert QwenMore(x, cs) + rest == rest;
      assert calls + QwenCalls(x, literal, cs) == calls;
      QwenAfterSteps(x, literal, rest, calls);
    } else {
      var tail := QwenMore(x, cs[1..]) + rest;
      var r := QwenOne(x, cs[0]) + tail;
      assert QwenMore(x, cs) + rest == "\n" + r;
      QwenOneReads(x, literal, cs[0], calls, tail);
      SkipsBreak(r);
      QwenAfterSteps(x, literal, "\n" + r, calls);
      QwenRoundTrip(x, literal, cs[1..], calls + [QwenCall(x, literal, cs[0])], rest);
      assert calls + [QwenCall(x, literal, cs[0])] + QwenCalls(x, literal, cs[1..]) ==
             calls + QwenCalls(x, literal, cs);
    }
  }

  lemma SkipsBreak(r: string)
    requires SkipSpace(r) == r
    ensures SkipSpace("\n" + r) == r
  {
    assert ("\n" + r)[1..] == r;
  }

  lemma {:induction false} QwenAfterKeeps(x: XmlSyntax, literal: string -> bool, r: string, calls: seq<Call>)
    ensures var s := QwenAfter(x, literal, r, calls);
            s.Closed? ==> calls <= s.calls && (XmlCalls(x, calls) ==> XmlCalls(x, s.calls))
    decreases |r|, 4
  {
    hide QwenFn, SkipSpace, XmlWellFormed, XmlCalls;
    XmlTagsNonEmpty(x);
    var t := SkipSpace(r);
    if x.callStart <= t {
      QwenFnKeeps(x, literal, t[|x.callStart|..], calls);
    }
  }

  /** The name a Qwen call is read under is trimmed. */
  lemma {:induction false} QwenFnKeeps(x: XmlSyntax, literal: string -> bool, r: string, calls: seq<Call>)
    ensures var s := QwenFn(x, literal, r, calls);
            s.Closed? ==>
                |calls| < |s.calls| && Names(x, s, calls, s.calls[|calls|].name) && Trimmed(s.calls[|calls|].name)
    decreases |r|, 3
  {
    hide QwenParams, SkipSpace, TrimSpace, IndexAngle, Trimmed, XmlWellFormed, XmlCalls;
    XmlTagsNonEmpty(x);
    var t := SkipSpace(r);
    if x.fnStart <= t {
      var body := t[|x.fnStart|..];
      var gt := IndexAngle(body);
      if gt >= 0 {
        TrimIsTrimmed(body[..gt]);
        QwenParamsName(x, literal, body[gt + 1..], calls, TrimSpace(body[..gt]), []);
      }
    }
  }

  lemma {:induction false} QwenParamsName(x: XmlSyntax, literal: string -> bool, r: string, calls: seq<Call>,
          name: string, ps: seq<Param>)
    requires XmlParams(x, ps)
    ensures Names(x, QwenParams(x, literal, r, calls, name, ps), calls, name)
    decreases |r|, 1
  {
    hide QwenValue, QwenFnEnd, SkipSpace, TrimSpace, IndexAngle, Trimmed, XmlParams, XmlCalls, XmlWellFormed;
    XmlTagsNonEmpty(x);
    var t := SkipSpace(r);
    if x.fnEnd <= t {
      QwenEndName(x, literal, t[|x.fnEnd|..], calls, name, ps);
    } else if x.paramStart <= t {
      var body := t[|x.paramStart|..];
      var gt := IndexAngle(body);
      if gt >= 0 && TrimSpace(body[..gt]) != "" {
        TrimIsTrimmed(body[..gt]);
        QwenValueName(x, literal, body[gt + 1..], calls, name, ps, TrimSpace(body[..gt]));
      }
    }
  }

  lemma {:induction false} QwenValueName(x: XmlSyntax, literal: string -> bool, r: string, calls: seq<Call>,
          name: string, ps: seq<Param>, key: string)
    requires XmlParams(x, ps) && key != "" && Trimmed(key)
    ensures Names(x, QwenValue(x, literal, r, calls, name, ps, key), calls, name)
    decreases |r|, 0
  {
    hide QwenParams, Index, Trimmed, XmlParams, XmlCalls, XmlWellFormed, Unescape, StripNewlines, TrimValue;
    XmlTagsNonEmpty(x);
    var end := Index(r, x.paramEnd);
    if end >= 0 {
      var p := QwenParam(x, literal, key, r[..end]);
      OneMoreParam(x, ps, p);
      QwenParamsName(x, literal, r[end + |x.paramEnd|..], calls, name, ps + [p]);
    }
  }

  lemma {:induction false} QwenEndName(x: XmlSyntax, literal: string -> bool, r: string, calls: seq<Call>,
          name: string, ps: seq<Param>)
    requires XmlParams(x, ps)
    ensures Names(x, QwenFnEnd(x, literal, r, calls, name, ps), calls, name)
    decreases |r|, 0
  {
    hide QwenAfter, SkipSpace, XmlParams, XmlCalls, XmlWellFormed;
    XmlTagsNonEmpty(x);
    var t := SkipSpace(r);
    if x.callEnd <= t {
      OneMoreCall(x, calls, Call(name, ps));
      QwenAfterKeeps(x, literal, t[|x.callEnd|..], calls + [Call(name, ps)]);
    }
  }

  /** A call that the writer accepts reads back exactly when neither its name nor a key has white space around it. */
  lemma QwenReadsBack(x: XmlSyntax, literal: string -> bool, c: Request)
    requires LongTags(x) && QwenRenderable(c)
    ensures x.callStart <= QwenOne(x, c)
    ensures QwenFn(x, literal, QwenOne(x, c)[|x.callStart|..], []) == Closed([QwenCall(x, literal, c)], "") <==>
            QwenReadable(c)
  {
    assert x.callStart <= QwenOne(x, c) by {
      hide QwenPairs;
      assert QwenOne(x, c)[..|x.callStart|] == x.callStart;
    }
    hide QwenFn, QwenAfter, QwenOne, QwenReads, QwenName, XmlWellFormed, Trimmed, SkipSpace;
    var t := QwenOne(x, c);
    var read := QwenCall(x, literal, c);
    assert t + "" == t;
    QwenKeysRead(x, literal, ObjectPairs(c.input));
    if QwenReadable(c) {
      QwenOneReads(x, literal, c, [], "");
      assert [] + [read] == [read];
      NothingMore(x, literal, [read]);
    } else {
      QwenFnKeeps(x, literal, t[|x.callStart|..], []);
      assert [read][0] == read;
    }
  }

  lemma NothingMore(x: XmlSyntax, literal: string -> bool, calls: seq<Call>)
    ensures QwenAfter(x, literal, "", calls) == Closed(calls, "")
  {
    XmlTagsNonEmpty(x);
  }

  lemma {:induction false} QwenKeysRead(x: XmlSyntax, literal: string -> bool, pairs: seq<Argument>)
    ensures forall i :: 0 <= i < |pairs| ==> QwenReads(x, literal, pairs)[i].key == pairs[i].key
  {
    hide Escape, TrimValue, XmlWellFormed;
    if pairs != [] {
      QwenKeysRead(x, literal, pairs[1..]);
    }
  }
}
