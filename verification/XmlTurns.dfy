/** Thinking turns of GLM and Qwen: the reasoning, the reply and the calls read back (dsml/glm.go:182-220,
    dsml/qwen.go:196-234, dsml/tooltext.go:101-130). */
module XmlTurns {
  import opened Text
  import opened ToolText
  import opened Markup
  import opened Calls
  import opened Grammar
  import opened Phases
  import opened Transitions
  import opened Decode
  import opened Completion
  import opened StructuralScan
  import opened Encode
  import opened RoundTrip
  import opened XmlEncode
  import opened MessageRoundTrip
  import opened XmlMessages

  // ----- what the structural scan passes over -----

  /** The scan takes `w` for the wrapper, or another one that opens alike and closes alike. */
  predicate Wraps(ws: seq<(string, string)>, w: (string, string)) {
    w in ws && w.0 != "" && Apart(w.0, THINK_END) && forall i :: 0 <= i < |ws| ==> ws[i].1 == w.1 || Apart(w.0, ws[i].0)
  }

  lemma {:induction false} WrapperCloses(ws: seq<(string, string)>, w: (string, string), s: string)
    requires w in ws && w.0 <= s && forall i :: 0 <= i < |ws| ==> ws[i].1 == w.1 || Apart(w.0, ws[i].0)
    ensures WrapperAt(ws, s).Some? && WrapperAt(ws, s).value.1 == w.1
  {
    if Apart(w.0, ws[0].0) {
      ApartOff(w.0, ws[0].0, s);
    }
    if !(ws[0].0 <= s) {
      WrapperCloses(ws[1..], w, s);
    }
  }

  lemma ApartOff(p: string, u: string, s: string)
    requires Apart(p, u) && p <= s
    ensures !(u <= s)
  {
    ApartIsFinal(p, p, u, s[|p|..]);
    assert s == p + s[|p|..];
  }

  /** An opening tag up to its only `>`, a body and the close tag: skipped whole, whatever the body holds. */
  lemma WrappedSkips(ws: seq<(string, string)>, w: (string, string), open: string, body: string, r: string)
    requires Wraps(ws, w) && w.0 <= open && open[|open| - 1] == '>' && '>' !in open[..|open| - 1]
    requires Index(body + w.1 + r, w.1) == |body|
    ensures LastStructural(ws, open + body + w.1 + r, THINK_END) ==
            Shift(|open + body + w.1|, LastStructural(ws, r, THINK_END))
  {
    hide LastStructural, WrapperAt, Index, Stride;
    var tail := body + w.1 + r;
    var s := open + tail;
    assert open + body + w.1 + r == s;
    assert w.0 <= open + tail by {
      assert (open + tail)[..|w.0|] == open[..|w.0|];
    }
    WrapperCloses(ws, w, s);
    ApartOff(w.0, THINK_END, s);
    assert open == open[..|open| - 1] + ['>'];
    UpTo(open[..|open| - 1], '>', tail);
    StrideIs(ws, open, tail, WrapperAt(ws, s).value, |body|);
    assert s[|open + body + w.1|..] == r;
    StrideShifts(ws, s, |open + body + w.1|);
  }

  /** The tags of the two dialects: four the scan passes, three it takes for wrappers. */
  predicate XmlPasses(ws: seq<(string, string)>, x: XmlSyntax) {
    && Openers(ws)
    && Inert(ws, x.callStart) && Inert(ws, x.callEnd) && Inert(ws, x.fnStart) && Inert(ws, x.fnEnd)
    && Wraps(ws, (x.keyStart, x.keyEnd)) && Wraps(ws, (x.valueStart, x.valueEnd)) &&
       Wraps(ws, (x.paramStart, x.paramEnd))
    && EndsOnly(x.keyStart) && EndsOnly(x.valueStart) && '>' !in x.paramStart && x.paramStart != ""
  }

  predicate EndsOnly(open: string) {
    open != "" && open[|open| - 1] == '>' && '>' !in open[..|open| - 1]
  }

  lemma FreeOfAngle(ws: seq<(string, string)>, s: string, r: string)
    requires Openers(ws) && '<' !in s
    ensures LastStructural(ws, s + r, THINK_END) == Shift(|s|, LastStructural(ws, r, THINK_END))
  {
    hide LastStructural, Inert, WrapperAt;
    if s == "" {
      assert s + r == r;
    } else {
      PlainIsInert(ws, s);
      InertSkips(ws, s, r);
    }
  }

  // ----- GLM -----

  lemma GlmPairSkips(ws: seq<(string, string)>, x: XmlSyntax, a: Argument, r: string)
    requires XmlPasses(ws, x)
    ensures LastStructural(ws, GlmPair(x, a) + r, THINK_END) == Shift(|GlmPair(x, a)|, LastStructural(ws, r, THINK_END))
  {
    hide LastStructural, Escape, XmlWellFormed, Index, Inert, Wraps, Openers, IsCloseTag;
    XmlCloseTags(x);
    var key, value := Escape(a.key, x.keyEnd), Escape(PlainValue(a.value), x.valueEnd);
    var first, second := x.keyStart + key + x.keyEnd, x.valueStart + value + x.valueEnd;
    EscapedBodyStaysOpen(a.key, x.keyEnd);
    FirstCloseEndsBody(key, x.keyEnd, second + r);
    WrappedSkips(ws, (x.keyStart, x.keyEnd), x.keyStart, key, second + r);
    EscapedBodyStaysOpen(PlainValue(a.value), x.valueEnd);
    FirstCloseEndsBody(value, x.valueEnd, r);
    WrappedSkips(ws, (x.valueStart, x.valueEnd), x.valueStart, value, r);
    assert GlmPair(x, a) == first + second;
    assert GlmPair(x, a) + r == first + (second + r);
  }

  lemma {:induction false} GlmPairsSkip(ws: seq<(string, string)>, x: XmlSyntax, pairs: seq<Argument>, r: string)
    requires XmlPasses(ws, x)
    ensures LastStructural(ws, GlmPairs(x, pairs) + r, THINK_END) ==
            Shift(|GlmPairs(x, pairs)|, LastStructural(ws, r, THINK_END))
    decreases |pairs|
  {
    hide LastStructural, GlmPair, XmlWellFormed, Inert, Wraps;
    if pairs == [] {
      InertSkips(ws, x.callEnd, r);
    } else {
      var tail := GlmPairs(x, pairs[1..]);
      assert GlmPairs(x, pairs) + r == GlmPair(x, pairs[0]) + (tail + r);
      GlmPairSkips(ws, x, pairs[0], tail + r);
      GlmPairsSkip(ws, x, pairs[1..], r);
    }
  }

  lemma {:induction false} GlmCallsSkip(ws: seq<(string, string)>, x: XmlSyntax, cs: seq<Request>, r: string)
    requires XmlPasses(ws, x) && forall i :: 0 <= i < |cs| ==> GlmReadable(cs[i])
    ensures LastStructural(ws, GlmText(x, cs) + r, THINK_END) ==
            Shift(|GlmText(x, cs)|, LastStructural(ws, r, THINK_END))
    decreases |cs|
  {
    hide LastStructural, GlmPairs, XmlWellFormed, Inert, Wraps, TrimmedKeys;
    if cs == [] {
      assert GlmText(x, cs) + r == r;
    } else {
      var name, pairs, tail := cs[0].name, GlmPairs(x, ObjectPairs(cs[0].input)), GlmText(x, cs[1..]);
      assert GlmText(x, cs) + r == x.callStart + (name + (pairs + (tail + r)));
      InertSkips(ws, x.callStart, name + (pairs + (tail + r)));
      FreeOfAngle(ws, name, pairs + (tail + r));
      GlmPairsSkip(ws, x, ObjectPairs(cs[0].input), tail + r);
      GlmCallsSkip(ws, x, cs[1..], r);
    }
  }

  // ----- Qwen -----

  lemma QwenPairSkips(ws: seq<(string, string)>, x: XmlSyntax, a: Argument, r: string)
    requires XmlPasses(ws, x) && LongTags(x) && QwenName(a.key)
    ensures LastStructural(ws, QwenPair(x, a) + r, THINK_END) ==
            Shift(|QwenPair(x, a)|, LastStructural(ws, r, THINK_END))
  {
    hide LastStructural, Escape, XmlWellFormed, Index, Inert, Wraps, Openers, IsCloseTag;
    XmlCloseTags(x);
    var open, e := x.paramStart + a.key + ">", Escape(PlainValue(a.value), x.paramEnd);
    var body := "\n" + e + "\n";
    EscapedBodyStaysOpen(PlainValue(a.value), x.paramEnd);
    FramedStaysOpen(e, x.paramEnd);
    FirstCloseEndsBody(body, x.paramEnd, "\n" + r);
    assert open[..|open| - 1] == x.paramStart + a.key;
    WrappedSkips(ws, (x.paramStart, x.paramEnd), open, body, "\n" + r);
    FreeOfAngle(ws, "\n", r);
    assert QwenPair(x, a) + r == open + body + x.paramEnd + ("\n" + r);
  }

  lemma {:induction false} QwenPairsSkip(ws: seq<(string, string)>, x: XmlSyntax, pairs: seq<Argument>, r: string)
    requires XmlPasses(ws, x) && LongTags(x) && QwenReadablePairs(pairs)
    ensures LastStructural(ws, QwenPairs(x, pairs) + r, THINK_END) ==
            Shift(|QwenPairs(x, pairs)|, LastStructural(ws, r, THINK_END))
    decreases |pairs|
  {
    hide LastStructural, QwenPair, XmlWellFormed, Inert, Wraps, QwenName;
    if pairs == [] {
      assert QwenPairs(x, pairs) + r == x.fnEnd + ("\n" + (x.callEnd + r));
      InertSkips(ws, x.fnEnd, "\n" + (x.callEnd + r));
      FreeOfAngle(ws, "\n", x.callEnd + r);
      InertSkips(ws, x.callEnd, r);
    } else {
      var tail := QwenPairs(x, pairs[1..]);
      assert QwenPairs(x, pairs) + r == QwenPair(x, pairs[0]) + (tail + r);
      QwenPairSkips(ws, x, pairs[0], tail + r);
      QwenPairsSkip(ws, x, pairs[1..], r);
    }
  }

  lemma QwenOneSkips(ws: seq<(string, string)>, x: XmlSyntax, c: Request, r: string)
    requires XmlPasses(ws, x) && LongTags(x) && QwenReadable(c)
    ensures LastStructural(ws, QwenOne(x, c) + r, THINK_END) == Shift(|QwenOne(x, c)|, LastStructural(ws, r, THINK_END))
  {
    hide LastStructural, QwenPairs, XmlWellFormed, Inert, Wraps, QwenReadablePairs;
    var pairs := QwenPairs(x, ObjectPairs(c.input)) + r;
    var name := c.name + ">\n";
    assert QwenOne(x, c) + r == x.callStart + ("\n" + (x.fnStart + (name + pairs)));
    InertSkips(ws, x.callStart, "\n" + (x.fnStart + (name + pairs)));
    FreeOfAngle(ws, "\n", x.fnStart + (name + pairs));
    InertSkips(ws, x.fnStart, name + pairs);
    FreeOfAngle(ws, name, pairs);
    QwenPairsSkip(ws, x, ObjectPairs(c.input), r);
  }

  lemma {:induction false} QwenMoreSkips(ws: seq<(string, string)>, x: XmlSyntax, cs: seq<Request>, r: string)
    requires XmlPasses(ws, x) && LongTags(x) && forall i :: 0 <= i < |cs| ==> QwenReadable(cs[i])
    ensures LastStructural(ws, QwenMore(x, cs) + r, THINK_END) ==
            Shift(|QwenMore(x, cs)|, LastStructural(ws, r, THINK_END))
    decreases |cs|
  {
    hide LastStructural, QwenOne, XmlWellFormed, Inert, Wraps, QwenReadable;
    if cs == [] {
      assert QwenMore(x, cs) + r == r;
    } else {
      var tail := QwenMore(x, cs[1..]);
      assert QwenMore(x, cs) + r == "\n" + (QwenOne(x, cs[0]) + (tail + r));
      FreeOfAngle(ws, "\n", QwenOne(x, cs[0]) + (tail + r));
      QwenOneSkips(ws, x, cs[0], tail + r);
      QwenMoreSkips(ws, x, cs[1..], r);
    }
  }

  lemma QwenCallsSkip(ws: seq<(string, string)>, x: XmlSyntax, cs: seq<Request>, r: string)
    requires XmlPasses(ws, x) && LongTags(x) && cs != [] && forall i :: 0 <= i < |cs| ==> QwenReadable(cs[i])
    ensures LastStructural(ws, QwenText(x, cs) + r, THINK_END) ==
            Shift(|QwenText(x, cs)|, LastStructural(ws, r, THINK_END))
  {
    hide LastStructural, QwenOne, QwenMore, XmlWellFormed, Inert, Wraps, QwenReadable;
    var tail := QwenMore(x, cs[1..]);
    assert QwenText(x, cs) + r == QwenOne(x, cs[0]) + (tail + r);
    QwenOneSkips(ws, x, cs[0], tail + r);
    QwenMoreSkips(ws, x, cs[1..], r);
  }

  // ----- the tags of the dialects -----

  lemma TagsOfForms(d: Reader)
    requires d.xml == XmlForms()
    ensures XmlPasses(Wrappers(d), d.xml)
  {
    hide Wrappers, WellFormed, XmlWellFormed, XmlForms, Inert, Wraps, IsOpener, EndsOnly;
    var ws, x := Wrappers(d), d.xml;
    FormTags(x);
    forall i | 0 <= i < |ws| ensures FormPasses(x, ws[i]) {
      FormPassesWrapper(d, i);
    }
    assert Inert(ws, x.callStart) && Inert(ws, x.callEnd) && Inert(ws, x.fnStart) && Inert(ws, x.fnEnd) by {
      hide TagPasses;
      BecomesInert(ws, x.callStart);
      BecomesInert(ws, x.callEnd);
      BecomesInert(ws, x.fnStart);
      BecomesInert(ws, x.fnEnd);
    }
    WrappersIn(d);
    FormsWrap(ws, x);
    assert Openers(ws);
  }

  /** What one wrapper of the scan does not collide with. */
  predicate FormPasses(x: XmlSyntax, w: (string, string)) {
    && w.0 != "" && w.0[0] == '<'
    && Apart(x.callStart, w.0) && Apart(x.callEnd, w.0) && Apart(x.fnStart, w.0) && Apart(x.fnEnd, w.0)
    && (w.1 == x.keyEnd || Apart(x.keyStart, w.0)) && (w.1 == x.valueEnd || Apart(x.valueStart, w.0))
    && (w.1 == x.paramEnd || Apart(x.paramStart, w.0))
  }

  lemma TagKept(t: string, k: nat)
    requires (IsOpener(t) || IsCloseTag(t)) && t != "" && k < |t| && k < |THINK_END| && t[k] != THINK_END[k]
    ensures TagPasses(t)
  {
    OneAngle(t);
    ProbesApart(t, THINK_END, k);
  }

  lemma FormTags(x: XmlSyntax)
    requires x == XmlForms()
    ensures TagPasses(x.callStart) && TagPasses(x.callEnd) && TagPasses(x.fnStart) && TagPasses(x.fnEnd)
    ensures EndsOnly(x.keyStart) && EndsOnly(x.valueStart) && '>' !in x.paramStart && x.paramStart != ""
    ensures Apart(x.keyStart, THINK_END) && Apart(x.valueStart, THINK_END) && Apart(x.paramStart, THINK_END)
  {
    hide XmlForms, TagPasses, EndsOnly, Apart, IsOpener, IsCloseTag;
    FormLetters(x);
    XmlCloseTags(x);
    assert IsOpener(x.callStart) && IsOpener(x.fnStart);
    FormEnds(x);
    assert THINK_END[1] == '/' && THINK_END[2] == 't' && THINK_END[3] == 'h';
    TagKept(x.callStart, 1);
    TagKept(x.callEnd, 3);
    TagKept(x.fnStart, 1);
    TagKept(x.fnEnd, 2);
    ProbesApart(x.keyStart, THINK_END, 1);
    ProbesApart(x.valueStart, THINK_END, 1);
    ProbesApart(x.paramStart, THINK_END, 1);
  }

  lemma FormEnds(x: XmlSyntax)
    requires x == XmlForms()
    ensures EndsOnly(x.keyStart) && EndsOnly(x.valueStart) && '>' !in x.paramStart && x.paramStart != ""
  {
    hide XmlWellFormed;
  }

  lemma WrappersIn(d: Reader)
    ensures var ws, x := Wrappers(d), d.xml;
            |ws| == 8 && ws[5] == (x.keyStart, x.keyEnd) && ws[6] == (x.valueStart, x.valueEnd) &&
                ws[7] == (x.paramStart, x.paramEnd)
  {
    hide Wrappers, WellFormed, XmlWellFormed, V4, V41;
    WrappersAre(d);
  }

  lemma FormsWrap(ws: seq<(string, string)>, x: XmlSyntax)
    requires forall i :: 0 <= i < |ws| ==> FormPasses(x, ws[i])
    requires |ws| == 8 && ws[5] == (x.keyStart, x.keyEnd) && ws[6] == (x.valueStart, x.valueEnd) &&
             ws[7] == (x.paramStart, x.paramEnd)
    requires Apart(x.keyStart, THINK_END) && Apart(x.valueStart, THINK_END) && Apart(x.paramStart, THINK_END)
    ensures Wraps(ws, (x.keyStart, x.keyEnd)) && Wraps(ws, (x.valueStart, x.valueEnd)) &&
            Wraps(ws, (x.paramStart, x.paramEnd))
  {
    hide XmlWellFormed, Apart;
  }

  lemma FormPassesWrapper(d: Reader, i: nat)
    requires d.xml == XmlForms() && i < |Wrappers(d)|
    ensures FormPasses(d.xml, Wrappers(d)[i])
  {
    hide Wrappers, WellFormed, XmlWellFormed, XmlForms, IsName;
    WrapperProbes(d, i);
    WrappersIn(d);
    var x, w := d.xml, Wrappers(d)[i];
    FormLetters(x);
    ProbesApart(x.callStart, w.0, 1);
    ProbesApart(x.callEnd, w.0, 1);
    ProbesApart(x.fnStart, w.0, 1);
    ProbesApart(x.fnEnd, w.0, 1);
    if i == 5 {
      ProbesApart(x.valueStart, w.0, 5);
      ProbesApart(x.paramStart, w.0, 1);
    } else if i == 6 {
      ProbesApart(x.keyStart, w.0, 5);
      ProbesApart(x.paramStart, w.0, 1);
    } else {
      ProbesApart(x.keyStart, w.0, 1);
      ProbesApart(x.valueStart, w.0, 1);
      if i == 2 {
        PlainCloser(d);
      } else if i != 7 {
        ProbesApart(x.paramStart, w.0, 1);
      }
    }
  }

  lemma FormLetters(x: XmlSyntax)
    requires x == XmlForms()
    ensures |x.callStart| > 5 && |x.callEnd| > 5 && |x.fnStart| > 5 && |x.fnEnd| > 5
    ensures |x.keyStart| > 5 && |x.valueStart| > 5 && |x.paramStart| > 5
    ensures x.callStart[1] == 't' && x.callEnd[1] == '/' && x.fnStart[1] == 'f' && x.fnEnd[1] == '/'
    ensures x.keyStart[1] == 'a' && x.valueStart[1] == 'a' && x.paramStart[1] == 'p' && x.keyStart[5] == 'k' &&
            x.valueStart[5] == 'v'
    ensures x.callEnd[3] == 'o' && x.fnEnd[2] == 'f'
  {
    hide XmlWellFormed;
  }

  /** The plain `<parameter` of DSML begins `<parameter=` too, and closes with the same tag. */
  lemma PlainCloser(d: Reader)
    requires d.xml == XmlForms()
    ensures |Wrappers(d)| > 2 && Wrappers(d)[2].1 == d.xml.paramEnd
  {
    hide Wrappers, WellFormed, XmlWellFormed;
    WrappersAre(d);
  }

  // ----- the whole turn -----

  lemma CallsSkip(d: Reader, cs: seq<Request>, r: string)
    requires IsXml(d.dialect) && d.xml == XmlForms() && cs != [] && ReadableIn(d, cs)
    ensures LastStructural(Wrappers(d), CallsText(d, cs) + r, THINK_END) ==
            Shift(|CallsText(d, cs)|, LastStructural(Wrappers(d), r, THINK_END))
  {
    hide LastStructural, Wrappers, GlmText, QwenText, XmlForms, XmlWellFormed, GlmReadable, QwenReadable, XmlPasses,
         LongTags;
    TagsOfForms(d);
    FormsAreLong();
    if d.dialect == Glm {
      GlmCallsSkip(Wrappers(d), d.xml, cs, r);
    } else {
      QwenCallsSkip(Wrappers(d), d.xml, cs, r);
    }
  }

  lemma CallsHaveNoCloser(d: Reader, cs: seq<Request>)
    requires IsXml(d.dialect) && d.xml == XmlForms() && cs != [] && ReadableIn(d, cs) && Structural(Wrappers(d))
    ensures NoCloser(Wrappers(d), CallsText(d, cs) + EOS) && TagFollows(CallsText(d, cs) + EOS)
  {
    hide LastStructural, Wrappers, CallsText, XmlForms, XmlWellFormed, ReadableIn, Structural, EOS;
    CallsOpen(d, cs, EOS);
    CallsSkip(d, cs, EOS);
    EosHasNoCloser(Wrappers(d));
  }

  lemma CallsOpen(d: Reader, cs: seq<Request>, r: string)
    requires IsXml(d.dialect) && cs != []
    ensures var t := CallsText(d, cs) + r; t != "" && t[0] == '<'
  {
    hide GlmText, QwenText, XmlWellFormed;
    if d.dialect == Glm {
      GlmStarts(d.xml, cs);
    } else {
      QwenStarts(d.xml, cs);
    }
    CallTagOpens(d, "");
    assert d.xml.callStart <= CallsText(d, cs);
  }

  /** A thinking turn with calls, written and read back, though values may hold close tags or `</think>`: for every
      reasoning, exactly when the argument bodies of the reasoning close and the reply holds no structural `</think>`,
      which for content whose own bodies close is a condition on the content alone. */
  lemma XmlTurnRoundTrip(dialect: Dialect, json: Json, literal: string -> bool, reasoning: string, content: string,
          cs: seq<Request>)
    requires IsXml(dialect) && cs != []
    requires var d := ReaderOf(dialect, json, literal); ReadableIn(d, cs) && ContentBeforeTag(d, content)
    ensures var d := ReaderOf(dialect, json, literal);
            var ws, reply := Wrappers(d), content + CallsText(d, cs) + EOS;
            && (ParseCompletion(d, THINK_START + reasoning + THINK_END + reply, true)
                == Parsed(TrimSpace(content), TrimSpace(reasoning), AllReturned(json, CallsRead(d, cs), ""), None)
               <==> BodiesClose(ws, reasoning) && NoCloser(ws, reply))
            && (BodiesClose(ws, content) ==> (NoCloser(ws, reply) <==> NoCloser(ws, content)))
  {
    hide WellFormed, XmlWellFormed, Structural, ContentBeforeTag, Wrappers, ParseContent, ParseCompletion, Table,
         XmlForms, EOS, TrimSpace, BodiesClose, NoCloser, LastStructural, CallsText, CallsRead, AllReturned,
         ReadableIn;
    var d := ReaderOf(dialect, json, literal);
    WrappersPass(dialect, json, literal);
    ThinkingReads(d, reasoning, content + CallsText(d, cs) + EOS);
    XmlReplyReads(dialect, json, literal, content, cs, "");
    assert EOS + "" == EOS;
    CallsHaveNoCloser(d, cs);
    assert content + CallsText(d, cs) + EOS == content + (CallsText(d, cs) + EOS);
    if BodiesClose(Wrappers(d), content) {
      CloserInFront(Wrappers(d), content, CallsText(d, cs) + EOS);
    }
  }

  /** Reasoning that quotes a whole argument element reads back; reasoning that quotes only its opening tag does not,
      in any dialect. */
  lemma QuotedElements(dialect: Dialect, json: Json, literal: string -> bool, quoted: string)
    ensures var d := ReaderOf(dialect, json, literal);
            && (!Contains(quoted, d.xml.keyEnd) ==> BodiesClose(Wrappers(d), d.xml.keyStart + quoted + d.xml.keyEnd))
            && !BodiesClose(Wrappers(d), d.xml.keyStart)
  {
    hide WellFormed, XmlWellFormed, XmlForms, Wrappers, Table, Inert, Apart, Index, WrapperAt, Stride;
    var d := ReaderOf(dialect, json, literal);
    var ws, open, close := Wrappers(d), d.xml.keyStart, d.xml.keyEnd;
    TagsOfForms(d);
    XmlCloseTags(d.xml);
    WrappedStride(ws, (open, close), "");
    assert open + "" == open;
    if !Contains(quoted, close) {
      FirstCloseEndsBody(quoted, close, "");
      assert quoted + close + "" == quoted + close && open + (quoted + close) == open + quoted + close;
      WrappedStride(ws, (open, close), quoted + close);
    }
  }

  lemma WrappedStride(ws: seq<(string, string)>, w: (string, string), tail: string)
    requires Wraps(ws, w) && EndsOnly(w.0) && w.1 != ""
    ensures Index(tail, w.1) >= 0 ==> Stride(ws, w.0 + tail) == Some(|w.0| + Index(tail, w.1) + |w.1|)
    ensures tail == "" ==> Stride(ws, w.0 + tail) == None
  {
    hide WrapperAt, Index;
    var open, s := w.0, w.0 + tail;
    WrapperCloses(ws, w, s);
    assert open == open[..|open| - 1] + ['>'];
    UpTo(open[..|open| - 1], '>', tail);
    assert s[|open|..] == tail;
    if tail == "" {
      IndexIsFirst(tail, w.1);
    }
  }
}
