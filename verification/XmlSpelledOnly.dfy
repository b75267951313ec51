/** The same for GLM and Qwen (dsml/glm.go:127-221, dsml/qwen.go:157-248, dsml/stream.go:699-840, 1038-1143): calls are
    found exactly in the texts that hold a spelled run of them. */
module XmlSpelledOnly {
  import opened Text
  import opened ToolText
  import opened Markup
  import opened Calls
  import opened Grammar
  import opened Phases
  import opened Transitions
  import opened Decode
  import opened XmlDecode
  import opened Completion
  import opened RoundTrip
  import opened XmlEncode
  import opened MessageRoundTrip
  import opened XmlMessages
  import opened StreamVsBatch
  import opened BlockSpelling
  import opened SpelledOnly
  import opened XmlSpelling

  // ----- GLM -----

  /** What is left of a text behind the first occurrence of a tag. */
  function Behind(s: string, tag: string): string {
    From(s, Index(s, tag) + |tag|)
  }

  /** The text in front of it. */
  function InFront(s: string, tag: string): string {
    Until(s, Index(s, tag))
  }

  lemma CutAtTag(s: string, tag: string)
    requires tag != "" && Index(s, tag) >= 0
    ensures s == InFront(s, tag) + tag + Behind(s, tag) && !Contains(InFront(s, tag), tag)
  {
    hide Index;
    NoneInFront(s, tag);
    CutApart(s, tag);
  }

  lemma CloseTagsNonEmpty(x: XmlSyntax)
    ensures x.keyEnd != "" && x.valueEnd != ""
  {
    hide IsOpener;
    XmlCloseTags(x);
  }

  /** What stands where an argument is read. */
  lemma GlmArgumentParts(x: XmlSyntax, r: string, calls: seq<Call>, name: string, ps: seq<Param>)
    requires GlmArgs(x, r, calls, name, ps).Closed? && !(x.callEnd <= r)
    ensures x.keyStart <= r && Index(r[|x.keyStart|..], x.keyEnd) >= 0
    ensures var body := r[|x.keyStart|..];
            && Unescape(TrimSpace(InFront(body, x.keyEnd)), x.keyEnd) != ""
            && x.valueStart <= SkipSpace(Behind(body, x.keyEnd))
            && Index(SkipSpace(Behind(body, x.keyEnd))[|x.valueStart|..], x.valueEnd) >= 0
  {
    hide Index, XmlWellFormed, SkipSpace, TrimSpace, Unescape;
  }

  /** What is read between a call's tags is a spelled argument. */
  lemma GlmArgumentIsSpelled(x: XmlSyntax, r: string, calls: seq<Call>, name: string, ps: seq<Param>)
      returns (a: GlmArgument, rest: string)
    requires GlmArgs(x, r, calls, name, ps).Closed? && !(x.callEnd <= r)
    ensures IsGlmArgument(x, a) && r == GlmArgumentText(x, a) + rest && |rest| < |r|
  {
    hide Index, XmlWellFormed, SkipSpace, TrimSpace, Unescape, Contains, GlmArgs, IsGap, InFront, Behind,
         GlmArgumentText;
    XmlTagsNonEmpty(x);
    CloseTagsNonEmpty(x);
    GlmArgumentParts(x, r, calls, name, ps);
    var body := r[|x.keyStart|..];
    CutAtTag(body, x.keyEnd);
    var key, after := InFront(body, x.keyEnd), Behind(body, x.keyEnd);
    var gap := GapIn(after);
    var v := SkipSpace(after)[|x.valueStart|..];
    CutAtTag(v, x.valueEnd);
    a, rest := GlmArgument(key, gap, InFront(v, x.valueEnd)), Behind(v, x.valueEnd);
    GlmArgumentJoins(x, a, rest);
    assert body == key + x.keyEnd + (gap + (x.valueStart + v));
  }

  lemma GlmArgumentJoins(x: XmlSyntax, a: GlmArgument, rest: string)
    ensures GlmArgumentText(x, a) + rest
         == x.keyStart + (a.key + x.keyEnd + (a.gap + (x.valueStart + (a.value + x.valueEnd + rest))))
  {
    hide XmlWellFormed;
  }

  lemma {:induction false} GlmArgumentsAreSpelled(x: XmlSyntax, r: string, calls: seq<Call>, name: string,
          ps: seq<Param>) returns (args: seq<GlmArgument>, rest: string)
    requires GlmArgs(x, r, calls, name, ps).Closed?
    ensures (forall i :: 0 <= i < |args| ==> IsGlmArgument(x, args[i])) && |rest| < |r|
    ensures r == GlmArgumentsText(x, args) + rest
    decreases |r|
  {
    hide GlmArgs, XmlWellFormed, IsGlmArgument, GlmArgumentText, Unescape, TrimSpace;
    XmlTagsNonEmpty(x);
    if x.callEnd <= r {
      args, rest := [], r[|x.callEnd|..];
    } else {
      var a, tail := GlmArgumentIsSpelled(x, r, calls, name, ps);
      GlmArgumentScans(x, a, calls, name, ps, tail);
      var others;
      others, rest := GlmArgumentsAreSpelled(x, tail, calls, name, ps + [GlmArgumentsOf(x, [a])[0]]);
      args := [a] + others;
      assert args[1..] == others;
    }
  }

  /** What is read behind `<tool_call>` is a spelled call. */
  lemma GlmCallIsSpelled(x: XmlSyntax, r: string, calls: seq<Call>, gap: string) returns (c: GlmSpelling, rest: string)
    requires GlmName(x, r, calls).Closed? && IsGap(gap)
    ensures IsGlmCall(x, c) && c.gap == gap && r == c.name + (GlmArgumentsText(x, c.args) + rest) && |rest| < |r|
  {
    hide Index, XmlWellFormed, TrimSpace, GlmArgs, IsGap, IsGlmArgument;
    var lt := Index(r, "<");
    NoneInFront(r, "<");
    NoAngleIn(r[..lt]);
    var args, tail := GlmArgumentsAreSpelled(x, r[lt..], calls, TrimSpace(r[..lt]), []);
    c, rest := GlmSpelling(gap, r[..lt], args), tail;
  }

  lemma NoAngleIn(s: string)
    requires !Contains(s, "<")
    ensures '<' !in s
  {
    hide Index;
    IndexIsFirst(s, "<");
    forall j | 0 <= j < |s| ensures s[j] != '<' {
      assert s[j..] == [s[j]] + s[j + 1..];
    }
  }

  /** One spelled call is read, whatever follows. */
  lemma GlmCallScans(x: XmlSyntax, c: GlmSpelling, calls: seq<Call>, rest: string)
    requires IsGlmCall(x, c)
    ensures GlmName(x, c.name + (GlmArgumentsText(x, c.args) + rest), calls) ==
            GlmAfter(x, rest, calls + [Call(TrimSpace(c.name), GlmArgumentsOf(x, c.args))])
  {
    hide GlmName, GlmArgs, GlmArgumentsText, GlmArgumentsOf, IsGlmArgument, TrimSpace, XmlWellFormed, GlmAfter;
    GlmNameScans(x, c, calls, rest);
    GlmArgumentsScan(x, c.args, calls, TrimSpace(c.name), [], rest);
    assert [] + GlmArgumentsOf(x, c.args) == GlmArgumentsOf(x, c.args);
  }

  lemma {:induction false} GlmRunIsSpelled(x: XmlSyntax, r: string, calls: seq<Call>)
      returns (cs: seq<GlmSpelling>, rest: string)
    requires GlmAfter(x, r, calls).Closed?
    ensures (forall i :: 0 <= i < |cs| ==> IsGlmCall(x, cs[i])) && r == GlmSpelled(x, cs) + rest
    ensures !(x.callStart <= SkipSpace(rest))
    decreases |r|
  {
    hide GlmName, GlmArgs, IsGlmCall, GlmArgumentsText, GlmArgumentsOf, TrimSpace, SkipSpace, XmlWellFormed;
    var t := SkipSpace(r);
    if x.callStart <= t {
      var gap := GapIn(r);
      var c, tail := GlmCallIsSpelled(x, t[|x.callStart|..], calls, gap);
      GlmCallScans(x, c, calls, tail);
      XmlTagsNonEmpty(x);
      var others;
      others, rest := GlmRunIsSpelled(x, tail, calls + [Call(TrimSpace(c.name), GlmArgumentsOf(x, c.args))]);
      cs := [c] + others;
      assert cs[1..] == others;
      assert r == c.gap + x.callStart + c.name + GlmArgumentsText(x, c.args) + (GlmSpelled(x, others) + rest);
    } else {
      cs, rest := [], r;
      assert r == "" + r;
    }
  }

  // ----- Qwen -----

  /** A name up to the first angle bracket, which is `>`. */
  predicate HasHead(s: string) {
    IndexAngle(s) >= 0 && s[IndexAngle(s)] == '>' && TrimSpace(Until(s, IndexAngle(s))) != ""
  }

  lemma HeadIs(s: string) returns (name: string, rest: string)
    requires HasHead(s)
    ensures IsHead(name) && s == name + ">" + rest
    ensures name == s[..IndexAngle(s)] && rest == s[IndexAngle(s) + 1..]
  {
    hide IndexAngle, TrimSpace;
    name, rest := s[..IndexAngle(s)], s[IndexAngle(s) + 1..];
  }

  lemma QwenArgumentParts(x: XmlSyntax, literal: string -> bool, r: string, calls: seq<Call>, name: string,
          ps: seq<Param>)
    requires QwenParams(x, literal, r, calls, name, ps).Closed? && !(x.fnEnd <= SkipSpace(r))
    ensures x.paramStart <= SkipSpace(r)
    ensures var body := SkipSpace(r)[|x.paramStart|..];
            HasHead(body) && Index(body[IndexAngle(body) + 1..], x.paramEnd) >= 0
  {
    hide Index, XmlWellFormed, SkipSpace, TrimSpace, IndexAngle, QwenParam;
  }

  lemma QwenArgumentIsSpelled(x: XmlSyntax, literal: string -> bool, r: string, calls: seq<Call>, name: string,
          ps: seq<Param>) returns (a: QwenArgument, rest: string)
    requires QwenParams(x, literal, r, calls, name, ps).Closed? && !(x.fnEnd <= SkipSpace(r))
    ensures IsQwenArgument(x, a) && r == QwenArgumentText(x, a) + rest && |rest| < |r|
  {
    hide Index, XmlWellFormed, SkipSpace, TrimSpace, IndexAngle, QwenParams, Contains, IsGap, InFront, Behind,
         HasHead, IsHead;
    XmlTagsNonEmpty(x);
    QwenArgumentParts(x, literal, r, calls, name, ps);
    var gap := GapIn(r);
    var key, body := HeadIs(SkipSpace(r)[|x.paramStart|..]);
    CutAtTag(body, x.paramEnd);
    a, rest := QwenArgument(gap, key, InFront(body, x.paramEnd)), Behind(body, x.paramEnd);
    QwenArgumentJoins(x, a, rest);
  }

  lemma QwenArgumentJoins(x: XmlSyntax, a: QwenArgument, rest: string)
    ensures QwenArgumentText(x, a) + rest
         == a.gap + (x.paramStart + (a.key + ">" + (a.value + x.paramEnd + rest)))
  {
    hide XmlWellFormed;
  }

  lemma {:induction false} QwenArgumentsAreSpelled(x: XmlSyntax, literal: string -> bool, r: string, calls: seq<Call>,
          name: string, ps: seq<Param>) returns (args: seq<QwenArgument>, tail: string, rest: string)
    requires QwenParams(x, literal, r, calls, name, ps).Closed?
    ensures (forall i :: 0 <= i < |args| ==> IsQwenArgument(x, args[i])) && IsGap(tail) && |rest| < |r|
    ensures r == QwenArgumentsText(x, args) + (tail + (x.fnEnd + rest))
    ensures QwenFnEnd(x, literal, rest, calls, name, ps + QwenArgumentsOf(x, literal, args)).Closed?
    decreases |r|
  {
    hide QwenParams, QwenFnEnd, XmlWellFormed, IsQwenArgument, QwenArgumentText, QwenParam, TrimSpace, SkipSpace;
    XmlTagsNonEmpty(x);
    if x.fnEnd <= SkipSpace(r) {
      tail := GapIn(r);
      args, rest := [], SkipSpace(r)[|x.fnEnd|..];
      QwenEndEntered(x, literal, r, calls, name, ps);
      assert ps + QwenArgumentsOf(x, literal, []) == ps;
    } else {
      var a, more := QwenArgumentIsSpelled(x, literal, r, calls, name, ps);
      QwenArgumentScans(x, literal, a, calls, name, ps, more);
      var p := QwenParam(x, literal, TrimSpace(a.key), a.value);
      var others;
      others, tail, rest := QwenArgumentsAreSpelled(x, literal, more, calls, name, ps + [p]);
      args := [a] + others;
      assert args[1..] == others;
      assert ps + [p] + QwenArgumentsOf(x, literal, others) == ps + QwenArgumentsOf(x, literal, args);
    }
  }

  lemma QwenEndEntered(x: XmlSyntax, literal: string -> bool, r: string, calls: seq<Call>, name: string, ps: seq<Param>)
    requires x.fnEnd <= SkipSpace(r)
    ensures QwenParams(x, literal, r, calls, name, ps)
         == QwenFnEnd(x, literal, SkipSpace(r)[|x.fnEnd|..], calls, name, ps)
  {
    hide QwenFnEnd, XmlWellFormed, SkipSpace;
  }

  lemma QwenFnParts(x: XmlSyntax, literal: string -> bool, r: string, calls: seq<Call>)
    requires QwenFn(x, literal, r, calls).Closed?
    ensures x.fnStart <= SkipSpace(r)
    ensures var body := SkipSpace(r)[|x.fnStart|..];
            var gt := IndexAngle(body);
            HasHead(body) && QwenParams(x, literal, body[gt + 1..], calls, TrimSpace(body[..gt]), []).Closed?
  {
    hide QwenParams, XmlWellFormed, SkipSpace, TrimSpace, IndexAngle;
  }

  lemma QwenFnEndParts(x: XmlSyntax, literal: string -> bool, r: string, calls: seq<Call>, name: string, ps: seq<Param>)
    requires QwenFnEnd(x, literal, r, calls, name, ps).Closed?
    ensures x.callEnd <= SkipSpace(r)
  {
    hide QwenAfter, XmlWellFormed, SkipSpace;
  }

  lemma Regroup(a: string, b: string, c: string)
    ensures a + (b + c) == a + b + c
  {}

  lemma QwenCallIsSpelled(x: XmlSyntax, literal: string -> bool, r: string, calls: seq<Call>, gap: string)
      returns (c: QwenSpelling, rest: string)
    requires QwenFn(x, literal, r, calls).Closed? && IsGap(gap)
    ensures IsQwenCall(x, c) && c.gap == gap && |rest| < |r|
    ensures r == c.head + x.fnStart + (c.name + ">" + (QwenArgumentsText(x, c.args) +
                 (c.tail + x.fnEnd + (c.end + x.callEnd + rest))))
  {
    hide QwenFn, QwenFnEnd, QwenParams, XmlWellFormed, SkipSpace, TrimSpace, IndexAngle, IsGap, HasHead, IsHead,
         IsQwenArgument, QwenArgumentsText, QwenArgumentsOf;
    XmlTagsNonEmpty(x);
    QwenFnParts(x, literal, r, calls);
    var head := GapIn(r);
    var name, body := HeadIs(SkipSpace(r)[|x.fnStart|..]);
    var args, tail, more := QwenArgumentsAreSpelled(x, literal, body, calls, TrimSpace(name), []);
    QwenFnEndParts(x, literal, more, calls, TrimSpace(name), [] + QwenArgumentsOf(x, literal, args));
    var end := GapIn(more);
    rest := SkipSpace(more)[|x.callEnd|..];
    c := QwenSpelling(gap, head, name, args, tail, end);
    var q := name + ">" + body;
    Regroup(end, x.callEnd, rest);
    Regroup(tail, x.fnEnd, more);
    Regroup(head, x.fnStart, q);
  }

  lemma {:induction false} QwenRunIsSpelled(x: XmlSyntax, literal: string -> bool, r: string, calls: seq<Call>)
      returns (cs: seq<QwenSpelling>, rest: string)
    requires QwenAfter(x, literal, r, calls).Closed?
    ensures (forall i :: 0 <= i < |cs| ==> IsQwenCall(x, cs[i])) && r == QwenSpelled(x, cs, rest)
    ensures !(x.callStart <= SkipSpace(rest))
    decreases |r|
  {
    hide QwenFn, IsQwenCall, QwenArgumentsText, QwenArgumentsOf, TrimSpace, SkipSpace, XmlWellFormed;
    var t := SkipSpace(r);
    if x.callStart <= t {
      var gap := GapIn(r);
      var c, tail := QwenCallIsSpelled(x, literal, t[|x.callStart|..], calls, gap);
      QwenCallScans(x, literal, c, calls, tail);
      XmlTagsNonEmpty(x);
      var read := Call(TrimSpace(c.name), QwenArgumentsOf(x, literal, c.args));
      var others;
      others, rest := QwenRunIsSpelled(x, literal, tail, calls + [read]);
      cs := [c] + others;
      assert cs[1..] == others;
      assert r == gap + (x.callStart + t[|x.callStart|..]);
    } else {
      cs, rest := [], r;
    }
  }

  // ----- both readers -----

  /** What each reader wants behind the calls. */
  predicate EndsAsciiBlank(rest: string) {
    AsciiBlank(UpToEos(rest))
  }

  predicate EndsBlank(rest: string) {
    TrimSpace(UpToEos(rest)) == ""
  }

  /** Plain content, a spelled run of calls, and no further call behind it. */
  predicate SpellsGlm(d: Reader, t: string, content: string, cs: seq<GlmSpelling>, rest: string) {
    && IsGlmRun(d.xml, cs) && ContentBeforeTag(d, content) && t == content + (GlmSpelled(d.xml, cs) + rest)
    && !(d.xml.callStart <= SkipSpace(rest))
  }

  predicate SpellsQwen(d: Reader, t: string, content: string, cs: seq<QwenSpelling>, rest: string) {
    && IsQwenRun(d.xml, cs) && ContentBeforeTag(d, content) && t == content + QwenSpelled(d.xml, cs, rest)
    && !(d.xml.callStart <= SkipSpace(rest))
  }

  /** What both readers make of calls and what is behind them. */
  predicate ReadAs(d: Reader, t: string, content: string, calls: seq<Call>, rest: string) {
    var m := ParseContent(d, t);
    && Decide(d, t).calls == (if EndsAsciiBlank(rest) then Some(calls) else None)
    && (EndsAsciiBlank(rest) ==> Decide(d, t).content == content + if Contains(rest, EOS) then "" else rest)
    && (if EndsBlank(rest)
        then m.malformed == None && m.content == TrimSpace(content) && SameCalls(d.json, m.calls, calls)
        else m.malformed == Some(TextAfterBlock) && m.calls == [])
    && (EndsAsciiBlank(rest) ==> EndsBlank(rest))
  }

  lemma RunIsReadAs(d: Reader, content: string, run: string, calls: seq<Call>, rest: string)
    requires IsXml(d.dialect) && ContentBeforeTag(d, content)
    requires d.xml.callStart <= run && ScanXml(d, DropPrefix(run, d.xml.callStart)) == Closed(calls, rest)
    ensures ReadAs(d, content + run, content, calls, rest)
  {
    hide MarkerAt, NextMarker, XmlWellFormed, ScanXml, UpToEos, TrimSpace, Decide, SameCalls, AsciiBlank, AllReturned;
    var tail := DropPrefix(run, d.xml.callStart);
    assert run == d.xml.callStart + tail;
    var t := content + run;
    CallsAreFirst(d, content, tail);
    assert t[..|content|] == content;
    XmlStreamedIsParsed(d, t, |content|, calls, rest);
    XmlInFront(d, t, |content|, calls, rest);
  }

  /** Only white space without the end of the sentence behind it is content behind the calls. */
  lemma XmlInFront(d: Reader, t: string, n: nat, calls: seq<Call>, rest: string)
    requires OpensCalls(d, t, n) && ScanXml(d, DropPrefix(t[n..], d.xml.callStart)) == Closed(calls, rest)
    ensures AsciiBlank(UpToEos(rest)) ==> Decide(d, t).content == t[..n] + if Contains(rest, EOS) then "" else rest
  {
    hide ScanXml, NextMarker, MarkerAt, SkipSpace, UpToEos, AsciiBlank, Contains, CutAfter, EOS, XmlWellFormed;
    TrailingText(rest);
  }

  /** Calls are read only where the scan of a run closes. */
  lemma ReadIsRun(d: Reader, t: string) returns (n: nat)
    requires IsXml(d.dialect) && (Decide(d, t).calls.Some? || ParseContent(d, t).calls != [])
    ensures n == NextMarker(d, t) && n < |t| && t[n] == '<' && d.xml.callStart <= t[n..]
    ensures ScanXml(d, DropPrefix(t[n..], d.xml.callStart)).Closed? && ContentBeforeTag(d, t[..n])
  {
    hide NextMarker, ScanXml, XmlWellFormed, TrimSpace, UpToEos, EOS, SkipSpace, ContentBeforeTag, JudgeEnd, CutAfter,
         HasStrayMarker, AllReturned;
    n := NextMarker(d, t);
    XmlOpens(d.xml);
    ContentInFront(d, t, n);
  }

  lemma GlmReadIsSpelled(d: Reader, t: string) returns (content: string, cs: seq<GlmSpelling>, rest: string)
    requires d.dialect == Glm && (Decide(d, t).calls.Some? || ParseContent(d, t).calls != [])
    ensures SpellsGlm(d, t, content, cs, rest)
  {
    hide NextMarker, GlmName, XmlWellFormed, SkipSpace, ContentBeforeTag, Decide, ParseContent, GlmSpelled, IsGlmRun,
         IsGlmCall;
    var n := ReadIsRun(d, t);
    var r := t[n..];
    OwnSpace(r);
    content := t[..n];
    cs, rest := GlmRunIsSpelled(d.xml, r, []);
    FirstGap(d.xml, cs, rest, r);
  }

  lemma OwnSpace(r: string)
    requires r != "" && r[0] == '<'
    ensures SkipSpace(r) == r
  {}

  lemma NothingSpelled(x: XmlSyntax, rest: string)
    ensures GlmSpelled(x, []) + rest == rest && QwenSpelled(x, [], rest) == rest
  {}

  lemma FirstGap(x: XmlSyntax, cs: seq<GlmSpelling>, rest: string, r: string)
    requires forall i :: 0 <= i < |cs| ==> IsGlmCall(x, cs[i])
    requires r == GlmSpelled(x, cs) + rest && r != "" && r[0] == '<' && (cs == [] ==> r != rest)
    ensures IsGlmRun(x, cs)
  {
    hide XmlWellFormed, GlmArgumentsText, IsGlmCall;
    NothingSpelled(x, rest);
    assert cs != [];
    GlmCallParts(x, cs[0]);
    assert r[..|cs[0].gap|] == cs[0].gap;
  }

  /** Texts that hold a spelled run of GLM calls are read as it, by both readers, and no other text makes calls. */
  lemma GlmExactly(json: Json, literal: string -> bool, t: string)
    ensures var d := ReaderOf(Glm, json, literal);
            && (forall content: string, cs: seq<GlmSpelling>, rest: string :: SpellsGlm(d, t, content, cs, rest) ==>
                  ReadAs(d, t, content, GlmCallsOf(d.xml, cs), rest))
            && (Decide(d, t).calls.Some? || ParseContent(d, t).calls != [] ==>
                exists content: string, cs: seq<GlmSpelling>, rest: string :: SpellsGlm(d, t, content, cs, rest))
  {
    hide SpellsGlm, ReadAs, Decide, ParseContent, XmlForms, Table, GlmCallsOf;
    var d := ReaderOf(Glm, json, literal);
    forall content: string, cs: seq<GlmSpelling>, rest: string | SpellsGlm(d, t, content, cs, rest)
      ensures ReadAs(d, t, content, GlmCallsOf(d.xml, cs), rest)
    {
      GlmSpelledReads(d, t, content, cs, rest);
    }
    if Decide(d, t).calls.Some? || ParseContent(d, t).calls != [] {
      var content, cs, rest := GlmReadIsSpelled(d, t);
    }
  }

  lemma GlmSpelledReads(d: Reader, t: string, content: string, cs: seq<GlmSpelling>, rest: string)
    requires d.dialect == Glm && SpellsGlm(d, t, content, cs, rest)
    ensures ReadAs(d, t, content, GlmCallsOf(d.xml, cs), rest)
  {
    hide IsGlmRun, ContentBeforeTag, GlmSpelled, GlmCallsOf, GlmName, SkipSpace, XmlWellFormed, ReadAs;
    GlmRunIs(d.xml, cs, rest);
    RunIsReadAs(d, content, GlmSpelled(d.xml, cs) + rest, GlmCallsOf(d.xml, cs), rest);
  }

  lemma QwenReadIsSpelled(d: Reader, t: string) returns (content: string, cs: seq<QwenSpelling>, rest: string)
    requires d.dialect == Qwen && (Decide(d, t).calls.Some? || ParseContent(d, t).calls != [])
    ensures SpellsQwen(d, t, content, cs, rest)
  {
    hide NextMarker, QwenFn, XmlWellFormed, SkipSpace, ContentBeforeTag, Decide, ParseContent, QwenSpelled, IsQwenRun,
         IsQwenCall;
    var n := ReadIsRun(d, t);
    var r := t[n..];
    OwnSpace(r);
    content := t[..n];
    cs, rest := QwenRunIsSpelled(d.xml, d.qwenLiteral, r, []);
    FirstQwenGap(d.xml, cs, rest, r);
  }

  lemma FirstQwenGap(x: XmlSyntax, cs: seq<QwenSpelling>, rest: string, r: string)
    requires forall i :: 0 <= i < |cs| ==> IsQwenCall(x, cs[i])
    requires r == QwenSpelled(x, cs, rest) && r != "" && r[0] == '<' && (cs == [] ==> r != rest)
    ensures IsQwenRun(x, cs)
  {
    hide XmlWellFormed, QwenArgumentsText, IsQwenCall;
    NothingSpelled(x, rest);
    assert cs != [];
    QwenGap(x, cs[0]);
    assert r[..|cs[0].gap|] == cs[0].gap;
  }

  /** The same for Qwen. */
  lemma QwenExactly(json: Json, literal: string -> bool, t: string)
    ensures var d := ReaderOf(Qwen, json, literal);
            && (forall content: string, cs: seq<QwenSpelling>, rest: string :: SpellsQwen(d, t, content, cs, rest) ==>
                  ReadAs(d, t, content, QwenCallsOf(d.xml, literal, cs), rest))
            && (Decide(d, t).calls.Some? || ParseContent(d, t).calls != [] ==>
                exists content: string, cs: seq<QwenSpelling>, rest: string :: SpellsQwen(d, t, content, cs, rest))
  {
    hide SpellsQwen, ReadAs, Decide, ParseContent, XmlForms, Table, QwenCallsOf;
    var d := ReaderOf(Qwen, json, literal);
    forall content: string, cs: seq<QwenSpelling>, rest: string | SpellsQwen(d, t, content, cs, rest)
      ensures ReadAs(d, t, content, QwenCallsOf(d.xml, literal, cs), rest)
    {
      QwenSpelledReads(d, t, content, cs, rest);
    }
    if Decide(d, t).calls.Some? || ParseContent(d, t).calls != [] {
      var content, cs, rest := QwenReadIsSpelled(d, t);
    }
  }

  lemma QwenSpelledReads(d: Reader, t: string, content: string, cs: seq<QwenSpelling>, rest: string)
    requires d.dialect == Qwen && SpellsQwen(d, t, content, cs, rest)
    ensures ReadAs(d, t, content, QwenCallsOf(d.xml, d.qwenLiteral, cs), rest)
  {
    hide IsQwenRun, ContentBeforeTag, QwenSpelled, QwenCallsOf, QwenFn, SkipSpace, XmlWellFormed, ReadAs;
    QwenRunIs(d.xml, d.qwenLiteral, cs, rest);
    RunIsReadAs(d, content, QwenSpelled(d.xml, cs, rest), QwenCallsOf(d.xml, d.qwenLiteral, cs), rest);
  }
}
