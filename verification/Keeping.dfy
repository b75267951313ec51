/** What a verdict leaves of a text (dsml/stream.go): every byte, up to an end-of-sentence token. */
module Keeping {
  import opened Text
  import opened ToolText
  import opened Markup
  import opened Calls
  import opened Grammar
  import opened Phases
  import opened Transitions

  /** `t` ends `s`. */
  predicate Ends(s: string, t: string) {
    |t| <= |s| && t == s[|s| - |t|..]
  }

  /** What a scan of `r` leaves is the end of `r`. */
  predicate Leaves(r: string, scan: Scan) {
    match scan
    case Bad(at) => Ends(r, at)
    case Closed(_, rest) => Ends(r, rest)
  }

  lemma EndsOfEnds(r: string, n: nat, scan: Scan)
    requires n <= |r| && Leaves(r[n..], scan)
    ensures Leaves(r, scan)
  {}

  lemma {:induction false} BlockLeaves(b: Block, r: string, calls: seq<Call>)
    ensures Leaves(r, ScanBlock(b, r, calls))
    decreases |r|, 2
  {
    hide ScanBody, Attr, WellFormed, SkipSpace, OpensTag;
    var t := SkipSpace(r);
    var k := |r| - |t|;
    SkipSpaceIs(r);
    if OpensTag(t, b.syn.invokeStart) && (b.implicit || !(b.syn.toolEnd <= t)) {
      match InvokeHeader(t)
      case None => assert Leaves(t, ScanInvoke(b, t, calls));
      case Some(h) =>
        BodyLeaves(b, h.rest, calls, h.name, []);
        EndsOfEnds(t, Index(t, ">") + 1, ScanBody(b, h.rest, calls, h.name, []));
    } else {
      assert Leaves(t, BlockAt(b, t, calls));
    }
    EndsOfEnds(r, k, BlockAt(b, t, calls));
  }

  lemma {:induction false} BodyLeaves(b: Block, r: string, calls: seq<Call>, name: string, ps: seq<Param>)
    ensures Leaves(r, ScanBody(b, r, calls, name, ps))
    decreases |r|, 2
  {
    hide ScanBlock, ScanBody, ParamHeader, SkipSpace, OpensTag, Arguments, BlockParam;
    var t := SkipSpace(r);
    var k := |r| - |t|;
    SkipSpaceIs(r);
    TagsNonEmpty(b.syn);
    assert ScanBody(b, r, calls, name, ps) == BodyAt(b, t, calls, name, ps) by {
      BodyIsAt(b, r, calls, name, ps);
    }
    if b.syn.invokeEnd <= t {
      BlockLeaves(b, t[|b.syn.invokeEnd|..], calls + [Call(name, ps)]);
      EndsOfEnds(t, |b.syn.invokeEnd|, ScanBlock(b, t[|b.syn.invokeEnd|..], calls + [Call(name, ps)]));
    } else if OpensTag(t, b.syn.paramStart) {
      ParamLeaves(b, t, calls, name, ps);
    }
    EndsOfEnds(r, k, BodyAt(b, t, calls, name, ps));
  }

  lemma BodyIsAt(b: Block, r: string, calls: seq<Call>, name: string, ps: seq<Param>)
    ensures ScanBody(b, r, calls, name, ps) == BodyAt(b, SkipSpace(r), calls, name, ps)
  {
    hide BodyAt, SkipSpace;
  }

  lemma {:induction false} ParamLeaves(b: Block, r: string, calls: seq<Call>, name: string, ps: seq<Param>)
    ensures Leaves(r, ScanParam(b, r, calls, name, ps))
    decreases |r|, 1
  {
    hide ScanValue, Attr, Leaves;
    EndsHere(r);
    match ParamHeader(r)
    case None =>
    case Some(h) =>
      ValueLeaves(b, h.rest, calls, name, ps, h.name, h.isString);
      EndsOfEnds(r, Index(r, ">") + 1, ScanValue(b, h.rest, calls, name, ps, h.name, h.isString));
  }

  lemma {:induction false} ValueLeaves(b: Block, r: string, calls: seq<Call>, name: string, ps: seq<Param>,
          key: string, isString: bool)
    ensures Leaves(r, ScanValue(b, r, calls, name, ps, key, isString))
    decreases |r|, 0
  {
    hide ScanBody, BlockParam, WellFormed, Leaves;
    EndsHere(r);
    TagsNonEmpty(b.syn);
    var end := Index(r, b.syn.paramEnd);
    if end >= 0 {
      var n := end + |b.syn.paramEnd|;
      var qs := ps + [BlockParam(b.syn, key, r[..end], isString)];
      BodyLeaves(b, r[n..], calls, name, qs);
      EndsOfEnds(r, n, ScanBody(b, r[n..], calls, name, qs));
    }
  }

  lemma {:induction false} GlmNameLeaves(x: XmlSyntax, r: string, calls: seq<Call>)
    ensures Leaves(r, GlmName(x, r, calls))
    decreases |r|, 1
  {
    hide GlmArgs, XmlWellFormed, TrimSpace;
    var lt := Index(r, "<");
    if lt >= 0 && TrimSpace(r[..lt]) != "" && (x.keyStart <= r[lt..] || x.callEnd <= r[lt..]) {
      NonEmptyTrim(r[..lt]);
      GlmArgsLeaves(x, r[lt..], calls, TrimSpace(r[..lt]), []);
      EndsOfEnds(r, lt, GlmArgs(x, r[lt..], calls, TrimSpace(r[..lt]), []));
    }
  }

  lemma NonEmptyTrim(s: string)
    ensures TrimSpace(s) != "" ==> s != ""
  {}

  lemma {:induction false} GlmArgsLeaves(x: XmlSyntax, r: string, calls: seq<Call>, name: string, ps: seq<Param>)
    ensures Leaves(r, GlmArgs(x, r, calls, name, ps))
    decreases |r|, 1
  {
    hide GlmName, GlmValue, XmlWellFormed, TrimSpace, SkipSpace, Unescape, AfterKey, KeyText, Index, GlmAfter, Leaves;
    EndsHere(r);
    XmlTagsNonEmpty(x);
    if x.callEnd <= r {
      GlmAfterLeaves(x, r[|x.callEnd|..], calls + [Call(name, ps)]);
      EndsOfEnds(r, |x.callEnd|, GlmAfter(x, r[|x.callEnd|..], calls + [Call(name, ps)]));
    } else if KeyComplete(x, r) {
      GlmKeyLeaves(x, r, calls, name, ps);
    }
  }

  lemma {:induction false} GlmKeyLeaves(x: XmlSyntax, r: string, calls: seq<Call>, name: string, ps: seq<Param>)
    requires KeyComplete(x, r) && !(x.callEnd <= r)
    ensures Leaves(r, GlmArgs(x, r, calls, name, ps))
    decreases |r|, 0
  {
    hide GlmArgs, GlmValue, XmlWellFormed, AfterKey, KeyText, KeyComplete, Leaves;
    EndsHere(r);
    XmlTagsNonEmpty(x);
    GlmKeySteps(x, calls, name, ps, r);
    if x.valueStart <= AfterKey(x, r) {
      var t := AfterKey(x, r);
      var rest := t[|x.valueStart|..];
      AfterKeyIs(x, r);
      DropTwice(r, |r| - |t|, |x.valueStart|);
      GlmValueLeaves(x, rest, calls, name, ps, KeyText(x, r));
      EndsOfEnds(r, |r| - |rest|, GlmValue(x, rest, calls, name, ps, KeyText(x, r)));
    }
  }

  lemma {:induction false} GlmValueLeaves(x: XmlSyntax, r: string, calls: seq<Call>, name: string, ps: seq<Param>,
          key: string)
    ensures Leaves(r, GlmValue(x, r, calls, name, ps, key))
    decreases |r|, 0
  {
    hide GlmArgs, XmlWellFormed, Unescape;
    XmlTagsNonEmpty(x);
    var end := Index(r, x.valueEnd);
    if end >= 0 {
      var n := end + |x.valueEnd|;
      var v := Unescape(r[..end], x.valueEnd);
      GlmArgsLeaves(x, r[n..], calls, name, ps + [Param(key, v, v, true)]);
      EndsOfEnds(r, n, GlmArgs(x, r[n..], calls, name, ps + [Param(key, v, v, true)]));
    }
  }

  lemma {:induction false} GlmAfterLeaves(x: XmlSyntax, r: string, calls: seq<Call>)
    ensures Leaves(r, GlmAfter(x, r, calls))
    decreases |r|, 2
  {
    hide GlmName, XmlWellFormed, SkipSpace;
    XmlTagsNonEmpty(x);
    var t := SkipSpace(r);
    if x.callStart <= t {
      var rest := t[|x.callStart|..];
      SkipSpaceIs(r);
      assert rest == r[|r| - |rest|..];
      GlmNameLeaves(x, rest, calls);
      EndsOfEnds(r, |r| - |rest|, GlmName(x, rest, calls));
    }
  }

  /** The text after a head `<function=...>` or `<parameter=...>`. */
  function AfterHead(r: string, tag: string): (rest: string)
    requires tag <= SkipSpace(r) && IndexAngle(AfterTag(r, tag)) >= 0
    ensures |rest| < |r|
  {
    AfterTag(r, tag)[IndexAngle(AfterTag(r, tag)) + 1..]
  }

  lemma AfterHeadIs(r: string, tag: string)
    requires tag <= SkipSpace(r) && IndexAngle(AfterTag(r, tag)) >= 0
    ensures AfterHead(r, tag) == r[|r| - |AfterHead(r, tag)|..]
  {
    hide SkipSpace, IndexAngle, AfterTag;
    var t := AfterTag(r, tag);
    AfterTagIs(r, tag);
    DropTwice(r, |r| - |t|, IndexAngle(t) + 1);
  }

  lemma DropTwice(r: string, n: nat, k: nat)
    requires n + k <= |r|
    ensures r[n..][k..] == r[n + k..]
  {}

  lemma {:induction false} QwenFnLeaves(x: XmlSyntax, literal: string -> bool, r: string, calls: seq<Call>)
    ensures Leaves(r, QwenFn(x, literal, r, calls))
    decreases |r|, 0
  {
    hide QwenParams, XmlWellFormed, SkipSpace, TrimSpace, IndexAngle, Leaves;
    EndsHere(r);
    if x.fnStart <= SkipSpace(r) && IndexAngle(AfterTag(r, x.fnStart)) >= 0 {
      var rest := AfterHead(r, x.fnStart);
      AfterHeadIs(r, x.fnStart);
      var body := AfterTag(r, x.fnStart);
      var name := TrimSpace(body[..IndexAngle(body)]);
      QwenParamsLeave(x, literal, rest, calls, name, []);
      EndsOfEnds(r, |r| - |rest|, QwenParams(x, literal, rest, calls, name, []));
    }
  }

  lemma EndsHere(r: string)
    ensures Leaves(r, Bad(r)) && Leaves(r, Bad(""))
  {}

  lemma {:induction false} QwenParamsLeave(x: XmlSyntax, literal: string -> bool, r: string, calls: seq<Call>,
          name: string, ps: seq<Param>)
    ensures Leaves(r, QwenParams(x, literal, r, calls, name, ps))
    decreases |r|, 0
  {
    hide QwenFnEnd, QwenValue, XmlWellFormed, SkipSpace, TrimSpace, IndexAngle, Leaves;
    XmlTagsNonEmpty(x);
    EndsHere(r);
    if x.fnEnd <= SkipSpace(r) {
      var rest := AfterTag(r, x.fnEnd);
      AfterTagIs(r, x.fnEnd);
      QwenFnEndLeaves(x, literal, rest, calls, name, ps);
      EndsOfEnds(r, |r| - |rest|, QwenFnEnd(x, literal, rest, calls, name, ps));
    } else if x.paramStart <= SkipSpace(r) && IndexAngle(AfterTag(r, x.paramStart)) >= 0 {
      var rest := AfterHead(r, x.paramStart);
      AfterHeadIs(r, x.paramStart);
      var body := AfterTag(r, x.paramStart);
      var key := TrimSpace(body[..IndexAngle(body)]);
      QwenValueLeaves(x, literal, rest, calls, name, ps, key);
      EndsOfEnds(r, |r| - |rest|, QwenValue(x, literal, rest, calls, name, ps, key));
    }
  }

  lemma {:induction false} QwenValueLeaves(x: XmlSyntax, literal: string -> bool, r: string, calls: seq<Call>,
          name: string, ps: seq<Param>, key: string)
    ensures Leaves(r, QwenValue(x, literal, r, calls, name, ps, key))
    decreases |r|, 0
  {
    hide QwenParams, XmlWellFormed, QwenParam;
    XmlTagsNonEmpty(x);
    var end := Index(r, x.paramEnd);
    if end >= 0 {
      var n := end + |x.paramEnd|;
      var qs := ps + [QwenParam(x, literal, key, r[..end])];
      QwenParamsLeave(x, literal, r[n..], calls, name, qs);
      EndsOfEnds(r, n, QwenParams(x, literal, r[n..], calls, name, qs));
    }
  }

  lemma {:induction false} QwenFnEndLeaves(x: XmlSyntax, literal: string -> bool, r: string, calls: seq<Call>,
          name: string, ps: seq<Param>)
    ensures Leaves(r, QwenFnEnd(x, literal, r, calls, name, ps))
    decreases |r|, 0
  {
    hide QwenFn, QwenAfter, XmlWellFormed, SkipSpace;
    XmlTagsNonEmpty(x);
    if x.callEnd <= SkipSpace(r) {
      var after := AfterTag(r, x.callEnd);
      AfterTagIs(r, x.callEnd);
      QwenAfterLeaves(x, literal, after, calls + [Call(name, ps)]);
      EndsOfEnds(r, |r| - |after|, QwenAfter(x, literal, after, calls + [Call(name, ps)]));
    }
  }

  lemma {:induction false} QwenAfterLeaves(x: XmlSyntax, literal: string -> bool, r: string, calls: seq<Call>)
    ensures Leaves(r, QwenAfter(x, literal, r, calls))
    decreases |r|, 1
  {
    hide QwenFn, XmlWellFormed, SkipSpace;
    XmlTagsNonEmpty(x);
    if x.callStart <= SkipSpace(r) {
      var rest := AfterTag(r, x.callStart);
      AfterTagIs(r, x.callStart);
      QwenFnLeaves(x, literal, rest, calls);
      EndsOfEnds(r, |r| - |rest|, QwenFn(x, literal, rest, calls));
    }
  }

  /** The content shown keeps every byte, up to an end-of-sentence token. */
  predicate Keeps(whole: string, v: Verdict) {
    v.calls.None? ==> v.content <= whole && (v.content == whole || EOS <= whole[|v.content|..])
  }

  /** A text without accepted calls is shown whole, but for a tail that an end-of-sentence token begins. */
  lemma DecideKeepsBytes(d: Reader, s: string)
    ensures Keeps(s, Decide(d, s))
  {
    hide ScanOpened, ScanXml, NextMarker, MarkerAt, Keeps, Judge;
    var n := NextMarker(d, s);
    NextMarkerIsFirst(d, s);
    PlainKeepsBytes(d, s, n);
    if n < |s| {
      match MarkerAt(d, s[n..])
      case Opens(syn, implicit) =>
        OpenedLeaves(d, syn, implicit, s, n);
        JudgeKeepsBytes(d, s, s[..n], implicit, ScanOpened(d, syn, implicit, s[n..]));
      case OpensXml =>
        XmlLeaves(d, s, n);
        JudgeKeepsBytes(d, s, s[..n], false, ScanXml(d, DropPrefix(s[n..], d.xml.callStart)));
      case _ =>
    }
  }

  lemma OpenedLeaves(d: Reader, syn: Syntax, implicit: bool, s: string, n: nat)
    requires n <= |s|
    ensures Leaves(s, ScanOpened(d, syn, implicit, s[n..]))
  {
    hide ScanBlock;
    var r := if implicit then s[n..] else DropPrefix(s[n..], syn.toolStart);
    assert r == s[|s| - |r|..];
    BlockLeaves(Block(syn, implicit, d.json, true), r, []);
    EndsOfEnds(s, |s| - |r|, ScanOpened(d, syn, implicit, s[n..]));
  }

  lemma XmlLeaves(d: Reader, s: string, n: nat)
    requires n <= |s|
    ensures Leaves(s, ScanXml(d, DropPrefix(s[n..], d.xml.callStart)))
  {
    hide GlmName, QwenFn;
    var r := DropPrefix(s[n..], d.xml.callStart);
    assert r == s[|s| - |r|..];
    GlmNameLeaves(d.xml, r, []);
    QwenFnLeaves(d.xml, d.qwenLiteral, r, []);
    EndsOfEnds(s, |s| - |r|, ScanXml(d, r));
  }

  lemma PlainKeepsBytes(d: Reader, s: string, n: nat)
    requires n <= |s|
    ensures Keeps(s, Verdict(s, None))
    ensures n < |s| && MarkerAt(d, s[n..]) == Stop ==> Keeps(s, Verdict(s[..n], None))
  {
    hide ToolStartAt, InvokeAt;
    if n < |s| {
      ToolStartKinds(d.table, s[n..]);
      InvokeKinds(d.table, s[n..]);
    }
  }

  lemma JudgeKeepsBytes(d: Reader, whole: string, before: string, implicit: bool, scan: Scan)
    requires Leaves(whole, scan)
    ensures Keeps(whole, Judge(d, whole, before, implicit, scan))
  {
    hide CutAfter, SkipSpace;
    match scan
    case Bad(at) => CutKeepsBytes(whole, at);
    case Closed(_, rest) =>
      CutKeepsBytes(whole, rest);
      SkipSpaceIs(rest);
      CutKeepsBytes(whole, SkipSpace(rest));
  }

  lemma CutKeepsBytes(whole: string, at: string)
    requires Ends(whole, at)
    ensures Keeps(whole, Verdict(CutAfter(whole, at), None))
  {
    IndexIsFirst(at, EOS);
    var k, i := |whole| - |at|, Index(at, EOS);
    assert whole[..k] + at == whole;
    if i >= 0 {
      assert whole[..k] + at[..i] == whole[..k + i];
      assert whole[k + i..] == at[i..];
    }
  }
}
