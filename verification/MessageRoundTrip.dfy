/** A rendered assistant turn reads back: reasoning, content and calls (dsml/encode.go, dsml/decode.go). */
module MessageRoundTrip {
  import opened Text
  import opened ToolText
  import opened Markup
  import opened Calls
  import opened Grammar
  import opened Phases
  import opened Transitions
  import opened Decode
  import opened Completion
  import opened StructuralScan
  import opened Encode
  import opened RoundTrip

  predicate IsBlockDialect(dialect: Dialect) {
    dialect == Dsml || dialect == Dsml41
  }

  /** The spelling a dialect renders. */
  function Rendered(dialect: Dialect): (syn: Syntax)
    ensures syn in Table(dialect)
  {
    Table(dialect)[0]
  }

  function Separator(dialect: Dialect): string {
    if dialect == Dsml41 then " " else ""
  }

  function BlockName(dialect: Dialect): string {
    if dialect == Dsml41 then "calls" else "tool_calls"
  }

  /** The rendered spelling carries the full marker, and attributes and literals fit it. */
  lemma RenderedTags(dialect: Dialect)
    requires IsBlockDialect(dialect)
    ensures Rendered(dialect) == TagsNamed(MARKER + Separator(dialect), BlockName(dialect))
    ensures Writable(Rendered(dialect))
  {
    hide WellFormed, Writable;
    assert Rendered(dialect) == FullTags(Separator(dialect), BlockName(dialect));
    MarkerIsClean(Separator(dialect));
    NamedIsWritable(MARKER + Separator(dialect), BlockName(dialect));
  }

  lemma MarkerIsClean(sep: string)
    requires sep == "" || sep == " "
    ensures forall i :: 0 <= i < |MARKER + sep| ==> (MARKER + sep)[i] !in ">\"=\\"
  {
    NoneIn(BAR, "DSML", BAR, ">\"=\\");
    NoneIn(MARKER, sep, "", ">\"=\\");
    assert MARKER + sep + "" == MARKER + sep;
  }

  lemma NamedIsWritable(marker: string, block: string)
    requires WellFormed(TagsNamed(marker, block)) && forall i :: 0 <= i < |marker| ==> marker[i] !in ">\"=\\"
    ensures Writable(TagsNamed(marker, block))
  {
    var t := TagsNamed(marker, block);
    NoneIn("<", marker, "invoke", ">\"=");
    NoneIn("<", marker, "parameter", ">\"=");
    NoneIn("</", marker, "parameter>", "\\");
    assert t.invokeStart == "<" + marker + "invoke" && t.paramStart == "<" + marker + "parameter" &&
           t.paramEnd == "</" + marker + "parameter>";
  }

  lemma NoneIn(a: string, m: string, b: string, bad: string)
    requires (forall i :: 0 <= i < |a| ==> a[i] !in bad) && (forall i :: 0 <= i < |m| ==> m[i] !in bad) &&
             (forall i :: 0 <= i < |b| ==> b[i] !in bad)
    ensures var s := a + m + b; forall i :: 0 <= i < |s| ==> s[i] !in bad
  {}

  // ----- content in front of a block -----

  /** Content in which no marker begins, even with a line break after it. */
  predicate PlainContent(d: Reader, content: string) {
    forall j :: 0 <= j < |content| ==> MarkerAt(d, (content + "\n")[j..]) == NoMarker
  }

  /** The block rendered after the content is the first marker. */
  lemma BlockIsFirst(d: Reader, content: string, syn: Syntax, rest: string)
    requires PlainContent(d, content) && !IsXml(d.dialect) && syn in d.table && Unambiguous(d.table)
    ensures var t := content + "\n\n" + syn.toolStart + rest;
            && NextMarker(d, t) == |content| + 2 && MarkerAt(d, t[|content| + 2..]) == Opens(syn, false)
            && t[|content| + 2..] == syn.toolStart + rest
  {
    assert MarkerAt(d, syn.toolStart + rest) == Opens(syn, false) by {
      hide WellFormed, ToolStartAt, InvokeAt, EOS;
      UnlikeEosOf(syn);
      UnlikeEosIsFinal(syn.toolStart, syn.toolStart, rest);
      WrapperFound(d.table, syn, rest);
    }
    hide MarkerAt, NextMarker, WellFormed;
    var n := |content| + 2;
    var t := content + "\n\n" + syn.toolStart + rest;
    assert t[n..] == syn.toolStart + rest;
    forall j | 0 <= j < n ensures MarkerAt(d, t[j..]) == NoMarker {
      if j < |content| {
        var b := content + "\n";
        assert t == b + ("\n" + syn.toolStart + rest);
        assert b[|content|] == '\n';
        SettledTextIsContent(d, b, "\n" + syn.toolStart + rest, j);
      } else {
        assert t[j..][0] == '\n';
        NoMarkerInFront(d, t[j..]);
      }
    }
    NextMarkerIs(d, t, n);
  }

  lemma UnlikeEosOf(syn: Syntax)
    ensures UnlikeEos(syn.toolStart)
  {}

  lemma {:induction false} WrapperFound(table: seq<Syntax>, syn: Syntax, rest: string)
    requires syn in table && forall i ::
             0 <= i < |table| ==> table[i] == syn || Apart(syn.toolStart, table[i].toolStart)
    ensures ToolStartAt(table, syn.toolStart + rest) == Opens(syn, false)
  {
    if table[0] != syn {
      ApartIsFinal(syn.toolStart, syn.toolStart, table[0].toolStart, rest);
      WrapperFound(table[1..], syn, rest);
    }
  }

  // ----- the whole content -----

  /** A reply and its calls, as the batch reader returns them and as the stream decoder shows them: names,
      keys and values in order, and the exact block text for replay. */
  lemma ReplyReads(d: Reader, content: string, cs: seq<Request>, syn: Syntax, rest: string)
    requires TrimSpace(UpToEos(rest)) == ""
    requires PlainContent(d, content) && !IsXml(d.dialect) && syn in d.table && Unambiguous(d.table) &&
             Writable(syn) && cs != []
    requires Readable(Block(syn, false, d.json, false), cs)
    ensures ParseContent(d, content + BlockText(syn, cs) + rest)
         == Parsed(TrimSpace(content), "", AllReturned(d.json, ReadRequests(syn, cs), BlockText(syn, cs)), None)
  {
    hide MarkerAt, NextMarker, WellFormed, ScanBlock, InvokesText, AllReturned, ReadRequests, TrimSpace, EOS, UpToEos,
         PlainContent, Readable, BatchScan, RawStart, BlockText, Writable, Unambiguous;
    var inner := InvokesText(syn, cs) + rest;
    var t := content + BlockText(syn, cs) + rest;
    var n := |content| + 2;
    BlockParts(content, syn, cs, rest);
    BlockIsFirst(d, content, syn, inner);
    BlockReads(d, cs, syn, rest);
    TagsNonEmpty(syn);
    assert ParseContent(d, t) == BlockMessage(d, t, RawStart(t, n), true, BatchScan(d, syn, false, t[n..]));
  }

  lemma BlockParts(content: string, syn: Syntax, cs: seq<Request>, rest: string)
    requires cs != []
    ensures var t := content + BlockText(syn, cs) + rest;
            && t == content + "\n\n" + syn.toolStart + (InvokesText(syn, cs) + rest)
            && |content| + 2 <= |t| && RawStart(t, |content| + 2) == |content| && t[..|content|] == content
            && |content| <= |t| - |rest| && t[|content|..|t| - |rest|] == BlockText(syn, cs)
  {
    hide InvokesText, WellFormed;
    var t := content + BlockText(syn, cs) + rest;
    var n := |content| + 2;
    assert t == content + "\n\n" + (syn.toolStart + (InvokesText(syn, cs) + rest));
    assert t[n - 2..n] == "\n\n";
  }

  lemma BlockReads(d: Reader, cs: seq<Request>, syn: Syntax, rest: string)
    requires Writable(syn) && Readable(Block(syn, false, d.json, false), cs)
    ensures BatchScan(d, syn, false, syn.toolStart + (InvokesText(syn, cs) + rest)) ==
            Closed(ReadRequests(syn, cs), rest)
  {
    hide WellFormed, ScanBlock, InvokesText, ReadRequests, Readable, Writable;
    var inner := InvokesText(syn, cs) + rest;
    assert (syn.toolStart + inner)[|syn.toolStart|..] == inner;
    InvokesRead(BatchBlock(d, syn, false), cs, [], rest);
    assert [] + ReadRequests(syn, cs) == ReadRequests(syn, cs);
  }

  lemma NothingAfter(after: string)
    ensures TrimSpace(UpToEos(EOS + after)) == "" && TrimSpace(UpToEos("")) == ""
  {
    assert UpToEos(EOS + after) == "" && UpToEos("") == "";
    TrimLeftBlank("");
  }

  /** The stream decoder's verdict on the same text. */
  lemma ReplyStreams(d: Reader, content: string, cs: seq<Request>, syn: Syntax, after: string)
    requires PlainContent(d, content) && !IsXml(d.dialect) && syn in d.table && Unambiguous(d.table) &&
             Writable(syn) && cs != []
    requires Readable(Block(syn, false, d.json, true), cs)
    ensures Decide(d, content + BlockText(syn, cs) + EOS + after) ==
            Verdict(content + "\n\n", Some(ReadRequests(syn, cs)))
  {
    hide MarkerAt, NextMarker, WellFormed, ScanBlock, InvokesText, ReadRequests, EOS, PlainContent, Readable,
         SkipSpace, BlockText, Writable, Unambiguous, Decide;
    var rest := EOS + after;
    var inner := InvokesText(syn, cs) + rest;
    var t := content + "\n\n" + syn.toolStart + inner;
    assert content + BlockText(syn, cs) + EOS + after == content + BlockText(syn, cs) + rest;
    BlockParts(content, syn, cs, rest);
    BlockIsFirst(d, content, syn, inner);
    InvokesRead(Block(syn, false, d.json, true), cs, [], rest);
    assert [] + ReadRequests(syn, cs) == ReadRequests(syn, cs);
    StartsWithEos(after);
    TagsNonEmpty(syn);
    assert t[..|content| + 2] == content + "\n\n";
    ClosedBlockDecides(d, t, |content| + 2, syn, inner, ReadRequests(syn, cs), rest);
  }

  lemma ClosedBlockDecides(d: Reader, t: string, n: nat, syn: Syntax, inner: string, calls: seq<Call>, rest: string)
    requires n == NextMarker(d, t) && n < |t| && t[n..] == syn.toolStart + inner &&
             MarkerAt(d, t[n..]) == Opens(syn, false)
    requires ScanBlock(Block(syn, false, d.json, true), inner, []) == Closed(calls, rest) && EOS <= SkipSpace(rest)
    ensures Decide(d, t) == Verdict(t[..n], Some(calls))
  {
    hide MarkerAt, NextMarker, WellFormed, ScanBlock, EOS, SkipSpace, CutAfter;
    assert DropPrefix(syn.toolStart + inner, syn.toolStart) == inner;
  }

  lemma StartsWithEos(after: string)
    ensures SkipSpace(EOS + after) == EOS + after && EOS <= EOS + after
  {
    StartsWithTag(EOS + after, EOS);
  }

  // ----- what the structural scan passes over -----

  /** The tags of a spelling that the scan passes, and the one it skips the body of. */
  predicate Passable(ws: seq<(string, string)>, syn: Syntax) {
    && Openers(ws)
    && Inert(ws, syn.toolStart) && Inert(ws, syn.toolEnd) && Inert(ws, syn.invokeStart) && Inert(ws, syn.invokeEnd)
    && (syn.paramStart, syn.paramEnd) in ws && Apart(syn.paramStart, THINK_END)
    && (forall i :: 0 <= i < |ws| ==> ws[i] == (syn.paramStart, syn.paramEnd) || Apart(syn.paramStart, ws[i].0))
  }

  /** A parameter element is skipped whole, whatever its value holds. */
  lemma ParamSkips(ws: seq<(string, string)>, syn: Syntax, a: Argument, r: string)
    requires Passable(ws, syn) && Writable(syn) && a.key != ""
    ensures LastStructural(ws, ParamText(syn, a) + r, THINK_END) ==
            Shift(|ParamText(syn, a)|, LastStructural(ws, r, THINK_END))
  {
    hide LastStructural, ValueText, AttrEscape, WrapperAt, WellFormed, Index, Inert, Stride, Writable, ParamText,
         ParamTag;
    var v := ValueText(syn, a.value);
    var tag, tail := ParamTag(syn, a.key, v.1), v.0 + syn.paramEnd + r;
    ParamParts(syn, a, r);
    ParamOpensWrapper(ws, syn, a.key, v.1, tail);
    TagLength(syn, a.key, v.1, tail);
    ValueReads(syn, a, r);
    StrideIs(ws, tag, tail, (syn.paramStart, syn.paramEnd), |v.0|);
    StrideShifts(ws, tag + tail, |ParamText(syn, a)|);
  }

  lemma ParamParts(syn: Syntax, a: Argument, r: string)
    ensures var v := ValueText(syn, a.value);
            var tag := ParamTag(syn, a.key, v.1);
            && ParamText(syn, a) + r == tag + (v.0 + syn.paramEnd + r)
            && |ParamText(syn, a)| == |tag| + |v.0| + |syn.paramEnd| &&
               (ParamText(syn, a) + r)[|ParamText(syn, a)|..] == r
  {
    hide ValueText, AttrEscape, ParamTag, WellFormed;
  }

  lemma ParamOpensWrapper(ws: seq<(string, string)>, syn: Syntax, key: string, isString: bool, tail: string)
    requires Passable(ws, syn)
    ensures var s := ParamTag(syn, key, isString) + tail;
            s != "" && ParamTag(syn, key, isString) != "" &&
                WrapperAt(ws, s) == Some((syn.paramStart, syn.paramEnd)) && !(THINK_END <= s)
  {
    hide AttrEscape, WrapperAt, Inert;
    var s := ParamTag(syn, key, isString) + tail;
    var rest := s[|syn.paramStart|..];
    assert s == syn.paramStart + rest;
    ApartIsFinal(syn.paramStart, syn.paramStart, THINK_END, rest);
    WrapperIs(ws, (syn.paramStart, syn.paramEnd), s);
  }

  lemma StrideIs(ws: seq<(string, string)>, tag: string, tail: string, w: (string, string), k: nat)
    requires tag != "" && WrapperAt(ws, tag + tail) == Some(w) && Index(tag + tail, ">") == |tag| - 1
    requires Index(tail, w.1) == k
    ensures Stride(ws, tag + tail) == Some(|tag| + k + |w.1|)
  {
    hide WrapperAt, Index;
    assert (tag + tail)[|tag|..] == tail;
  }

  lemma StrideShifts(ws: seq<(string, string)>, s: string, n: nat)
    requires s != "" && n <= |s| && Stride(ws, s) == Some(n) && !(THINK_END <= s)
    ensures LastStructural(ws, s, THINK_END) == Shift(n, LastStructural(ws, s[n..], THINK_END))
  {}

  lemma TagLength(syn: Syntax, key: string, isString: bool, rest: string)
    requires Writable(syn)
    ensures Index(ParamTag(syn, key, isString) + rest, ">") == |ParamTag(syn, key, isString)| - 1
  {
    hide AttrEscape, Index, WellFormed;
    AttrClean(key);
    var a := syn.paramStart + " name=\"" + AttrEscape(key) + "\" string=\"" + BoolText(isString) + "\"";
    assert ParamTag(syn, key, isString) + rest == a + ['>'] + rest;
    UpTo(a, '>', rest);
  }

  lemma {:induction false} ParamsSkip(ws: seq<(string, string)>, syn: Syntax, pairs: seq<Argument>, r: string)
    requires Passable(ws, syn) && Writable(syn) && RenderablePairs(pairs)
    ensures LastStructural(ws, ParamsText(syn, pairs) + r, THINK_END) ==
            Shift(|ParamsText(syn, pairs)|, LastStructural(ws, r, THINK_END))
    decreases |pairs|
  {
    hide LastStructural, ParamText, WellFormed;
    PlainIsInert(ws, "\n");
    if pairs == [] {
      assert ParamsText(syn, pairs) + r == "\n" + (syn.invokeEnd + r);
      InertSkips(ws, "\n", syn.invokeEnd + r);
      InertSkips(ws, syn.invokeEnd, r);
    } else {
      var tail := ParamsText(syn, pairs[1..]);
      assert ParamsText(syn, pairs) + r == "\n" + (ParamText(syn, pairs[0]) + (tail + r));
      assert ValidAttribute(pairs[0].key);
      InertSkips(ws, "\n", ParamText(syn, pairs[0]) + (tail + r));
      ParamSkips(ws, syn, pairs[0], tail + r);
      ParamsSkip(ws, syn, pairs[1..], r);
    }
  }

  lemma InvokeTagInert(ws: seq<(string, string)>, syn: Syntax, name: string)
    requires Inert(ws, syn.invokeStart)
    ensures Inert(ws, InvokeTag(syn, name))
  {
    hide AttrEscape, WellFormed;
    AttrClean(name);
    var tag := InvokeTag(syn, name);
    var rest := " name=\"" + AttrEscape(name) + "\">";
    assert tag == syn.invokeStart + rest;
    forall i | 0 < i < |tag| ensures tag[i] != '<' {
      assert i < |syn.invokeStart| ==> tag[i] == syn.invokeStart[i];
    }
    if tag[0] == '<' {
      StillApart(syn.invokeStart, rest, THINK_END);
      forall i | 0 <= i < |ws| ensures Apart(tag, ws[i].0) {
        StillApart(syn.invokeStart, rest, ws[i].0);
      }
    }
  }

  lemma StillApart(t: string, rest: string, u: string)
    requires Apart(t, u)
    ensures Apart(t + rest, u)
  {
    var k :| 0 <= k < |t| && k < |u| && t[k] != u[k];
    assert (t + rest)[k] == t[k];
  }

  /** A whole call is passed over. */
  lemma InvokeSkips(ws: seq<(string, string)>, syn: Syntax, c: Request, r: string)
    requires Passable(ws, syn) && Writable(syn) && Renderable(c)
    ensures LastStructural(ws, InvokeText(syn, c) + r, THINK_END) ==
            Shift(|InvokeText(syn, c)|, LastStructural(ws, r, THINK_END))
  {
    hide LastStructural, ParamsText, InvokeTag, WellFormed, Inert, Writable;
    var tag, params := InvokeTag(syn, c.name), ParamsText(syn, PairsOf(c.input));
    assert InvokeText(syn, c) + r == tag + (params + r);
    InvokeTagInert(ws, syn, c.name);
    InertSkips(ws, tag, params + r);
    ParamsSkip(ws, syn, PairsOf(c.input), r);
  }

  lemma {:induction false} InvokesSkip(ws: seq<(string, string)>, syn: Syntax, cs: seq<Request>, r: string)
    requires Passable(ws, syn) && Writable(syn) && forall i :: 0 <= i < |cs| ==> Renderable(cs[i])
    ensures LastStructural(ws, InvokesText(syn, cs) + r, THINK_END) ==
            Shift(|InvokesText(syn, cs)|, LastStructural(ws, r, THINK_END))
    decreases |cs|
  {
    hide LastStructural, InvokeText, WellFormed, Inert, Writable, Renderable;
    PlainIsInert(ws, "\n");
    if cs == [] {
      assert InvokesText(syn, cs) + r == "\n" + (syn.toolEnd + r);
      InertSkips(ws, "\n", syn.toolEnd + r);
      InertSkips(ws, syn.toolEnd, r);
    } else {
      var tail := InvokesText(syn, cs[1..]) + r;
      assert InvokesText(syn, cs) + r == "\n" + (InvokeText(syn, cs[0]) + tail);
      InertSkips(ws, "\n", InvokeText(syn, cs[0]) + tail);
      InvokeSkips(ws, syn, cs[0], tail);
      InvokesSkip(ws, syn, cs[1..], r);
    }
  }

  // ----- the whole turn -----

  /** A written block, and what follows it, leaves no closer in sight, whatever its values hold. */
  lemma BlockHasNoCloser(ws: seq<(string, string)>, syn: Syntax, cs: seq<Request>, rest: string)
    requires Structural(ws) && Passable(ws, syn) && Writable(syn) && cs != []
    requires forall i :: 0 <= i < |cs| ==> Renderable(cs[i])
    ensures NoCloser(ws, BlockText(syn, cs) + rest) <==> NoCloser(ws, rest)
    ensures TagFollows(BlockText(syn, cs) + rest)
  {
    hide LastStructural, InvokesText, WellFormed, WrapperAt, Inert, EOS;
    var inner := InvokesText(syn, cs) + rest;
    assert BlockText(syn, cs) + rest == "\n\n" + (syn.toolStart + inner);
    PlainIsInert(ws, "\n\n");
    InertSkips(ws, "\n\n", syn.toolStart + inner);
    InertSkips(ws, syn.toolStart, inner);
    InvokesSkip(ws, syn, cs, rest);
  }

  lemma EosHasNoCloser(ws: seq<(string, string)>)
    requires Structural(ws)
    ensures NoCloser(ws, EOS) && TagFollows(EOS)
  {
    hide LastStructural, Inert, EOS;
    EosIsOpener();
    assert EOS + "" == EOS;
    InertSkips(ws, EOS, "");
    NothingLeft(ws);
  }

  lemma ReadableRenders(b: Block, cs: seq<Request>)
    requires Readable(b, cs)
    ensures forall i :: 0 <= i < |cs| ==> Renderable(cs[i])
  {}

  // ----- the dialects meet these conditions -----

  /** The marker of an opener: the byte after `<`, the byte at 4, and for the full marker the two bytes after it. */
  predicate Probes(u: string, first: char, fifth: char, twelfth: char, thirteenth: char) {
    |u| > 4 && u[0] == '<' && u[1] == first && u[4] == fifth &&
        (first == BAR[0] ==> |u| > 12 && u[11] == twelfth && u[12] == thirteenth)
  }

  /** An opener without the full marker. */
  predicate OtherProbe(u: string, first: char) {
    |u| > 4 && u[0] == '<' && u[1] == first
  }

  /** The wrapper openers, in order. */
  predicate ProbedAs(u: string, i: nat) {
    && IsOpener(u)
    && (if i == 0 then Probes(u, BAR[0], 'D', 'p', 'a')
        else if i == 3 then Probes(u, BAR[0], 'D', ' ', 'p')
        else OtherProbe(u, if i == 1 || i == 4 then 'D' else if i == 2 || i == 7 then 'p' else 'a'))
  }

  lemma WrapperProbes(d: Reader, i: nat)
    requires d.xml == XmlForms() && i < |Wrappers(d)|
    ensures ProbedAs(Wrappers(d)[i].0, i)
  {
    hide ProbedAs, V4, V41, XmlForms, Wrappers, WellFormed;
    WrappersAre(d);
    if i < 3 {
      V4Probes(i);
    } else if i < 5 {
      V41Probes(i - 3);
    } else {
      XmlProbes(d.xml, i);
    }
  }

  lemma V4Probes(i: nat)
    requires i < 3
    ensures ProbedAs(V4()[i].paramStart, i)
  {
    hide ProbedAs, FullTags, ShortTags, PlainTags;
    if i == 0 {
      FullProbe();
    } else if i == 1 {
      ShortProbe();
    } else {
      PlainProbe();
    }
  }

  lemma FullProbe()
    ensures ProbedAs(FullTags("", "tool_calls").paramStart, 0)
  {
    hide IsName, Apart, UnlikeEos, IsCloseTag;
    assert WellFormed(FullTags("", "tool_calls"));
  }

  lemma ShortProbe()
    ensures ProbedAs(ShortTags("", "tool_calls").paramStart, 1)
  {
    hide IsName, Apart, UnlikeEos, IsCloseTag;
    assert WellFormed(ShortTags("", "tool_calls"));
  }

  lemma PlainProbe()
    ensures ProbedAs(PlainTags().paramStart, 2)
  {
    hide IsName;
    assert WellFormed(PlainTags());
  }

  lemma V41Probes(i: nat)
    requires i < 2
    ensures ProbedAs(V41()[i].paramStart, i + 3)
  {
    hide IsName, Apart, UnlikeEos, IsCloseTag;
    assert WellFormed(V41()[i]);
  }

  lemma XmlProbes(x: XmlSyntax, i: nat)
    requires x == XmlForms() && 5 <= i <= 7
    ensures ProbedAs(if i == 5 then x.keyStart else if i == 6 then x.valueStart else x.paramStart, i)
  {
    hide IsName;
    assert XmlWellFormed(x);
  }

  lemma WrappersAre(d: Reader)
    ensures Wrappers(d) == [(V4()[0].paramStart, V4()[0].paramEnd), (V4()[1].paramStart, V4()[1].paramEnd),
                            (V4()[2].paramStart, V4()[2].paramEnd),
                            (V41()[0].paramStart, V41()[0].paramEnd), (V41()[1].paramStart, V41()[1].paramEnd),
                            (d.xml.keyStart, d.xml.keyEnd), (d.xml.valueStart, d.xml.valueEnd),
                                (d.xml.paramStart, d.xml.paramEnd)]
  {
    hide FullTags, ShortTags, PlainTags, WellFormed;
    var a, b := V4(), V41();
    assert ParamWrappers(a) ==
           [(a[0].paramStart, a[0].paramEnd), (a[1].paramStart, a[1].paramEnd), (a[2].paramStart, a[2].paramEnd)] by {
      assert a[1..][1..] == [a[2]] && a[2..][1..] == [];
      assert ParamWrappers(a[1..][1..][1..]) == [];
    }
    assert ParamWrappers(b) == [(b[0].paramStart, b[0].paramEnd), (b[1].paramStart, b[1].paramEnd)] by {
      assert b[1..] == [b[1]];
      assert ParamWrappers(b[1..][1..]) == [];
    }
  }

  lemma ProbesApart(u: string, v: string, k: nat)
    requires k < |u| && k < |v| && u[k] != v[k]
    ensures Apart(u, v)
  {}

  /** The rendered tags, as the scan sees them. */
  lemma RenderedProbes(dialect: Dialect)
    requires IsBlockDialect(dialect)
    ensures var syn := Rendered(dialect);
            var v41 := dialect == Dsml41;
            && Probes(syn.toolStart, BAR[0], 'D', if v41 then ' ' else 't', if v41 then 'c' else 'o')
            && Probes(syn.invokeStart, BAR[0], 'D', if v41 then ' ' else 'i', if v41 then 'i' else 'n')
            && Probes(syn.paramStart, BAR[0], 'D', if v41 then ' ' else 'p', if v41 then 'p' else 'a')
            && |syn.toolEnd| > 2 && syn.toolEnd[1] == '/' && syn.toolEnd[2] == BAR[0]
            && |syn.invokeEnd| > 2 && syn.invokeEnd[1] == '/' && syn.invokeEnd[2] == BAR[0]
  {
    hide WellFormed;
    RenderedTags(dialect);
  }

  lemma OneAngle(t: string)
    requires IsOpener(t) || IsCloseTag(t)
    ensures forall i :: 0 < i < |t| ==> t[i] != '<'
  {
    assert forall i :: 0 < i < |t| ==> t[i] == t[1..][i - 1];
  }

  /** Both block dialects: the structural scan passes their tags and skips their parameters. */
  lemma DialectsPass(dialect: Dialect, json: Json, literal: string -> bool)
    requires IsBlockDialect(dialect)
    ensures var d := ReaderOf(dialect, json, literal);
            Structural(Wrappers(d)) && Passable(Wrappers(d), Rendered(dialect))
  {
    hide Wrappers, WellFormed, XmlForms, Rendered, TagPasses, IsOpener, EOS;
    var d := ReaderOf(dialect, json, literal);
    var ws, syn := Wrappers(d), Rendered(dialect);
    forall i | 0 <= i < |ws| ensures PassesAll(dialect, ws[i]) {
      PassesWrapper(dialect, d, i);
    }
    TagsPass(dialect);
    ParamIsWrapper(dialect, d);
    BecomesInert(ws, EOS);
    BecomesInert(ws, syn.toolStart);
    BecomesInert(ws, syn.toolEnd);
    BecomesInert(ws, syn.invokeStart);
    BecomesInert(ws, syn.invokeEnd);
    assert Openers(ws);
  }

  /** What one wrapper of the scan does not collide with. */
  predicate PassesAll(dialect: Dialect, w: (string, string)) {
    var syn := Rendered(dialect);
    && IsOpener(w.0) && w.0[0] == '<' && Apart(THINK_START, w.0) && Apart(THINK_END, w.0) && Apart(EOS, w.0)
    && Apart(syn.toolStart, w.0) && Apart(syn.toolEnd, w.0) && Apart(syn.invokeStart, w.0) && Apart(syn.invokeEnd, w.0)
    && (w == (syn.paramStart, syn.paramEnd) || Apart(syn.paramStart, w.0))
  }

  /** A tag with one `<`, in front, that is no `</think>`. */
  predicate TagPasses(t: string) {
    t != "" && Apart(t, THINK_END) && forall i :: 0 < i < |t| ==> t[i] != '<'
  }

  lemma BecomesInert(ws: seq<(string, string)>, t: string)
    requires TagPasses(t) && forall i :: 0 <= i < |ws| ==> Apart(t, ws[i].0)
    ensures Inert(ws, t)
  {}

  lemma TagsPass(dialect: Dialect)
    requires IsBlockDialect(dialect)
    ensures var syn := Rendered(dialect);
            && TagPasses(syn.toolStart) && TagPasses(syn.toolEnd) && TagPasses(syn.invokeStart) &&
               TagPasses(syn.invokeEnd) && TagPasses(EOS)
            && Apart(syn.paramStart, THINK_END)
  {
    hide Rendered, IsOpener, IsCloseTag, TagPasses, WellFormed;
    RenderedProbes(dialect);
    var syn := Rendered(dialect);
    SyntaxOpens(syn);
    CloseTags(syn);
    TagIsPassed(syn.toolStart, 1);
    TagIsPassed(syn.toolEnd, 2);
    TagIsPassed(syn.invokeStart, 1);
    TagIsPassed(syn.invokeEnd, 2);
    assert TagPasses(EOS) by {
      EosIsOpener();
      EosProbe();
      TagIsPassed(EOS, 1);
    }
    ProbesApart(syn.paramStart, THINK_END, 1);
  }

  lemma TagIsPassed(t: string, k: nat)
    requires (IsOpener(t) || IsCloseTag(t)) && 0 < k <= 2 && k < |t| && t[k] == BAR[0]
    ensures TagPasses(t)
  {
    OneAngle(t);
    assert THINK_END[1] == '/' && THINK_END[2] == 't' && BAR[0] != '/' && BAR[0] != 't';
    ProbesApart(t, THINK_END, k);
  }

  lemma ParamIsWrapper(dialect: Dialect, d: Reader)
    requires IsBlockDialect(dialect)
    ensures var syn := Rendered(dialect); (syn.paramStart, syn.paramEnd) in Wrappers(d)
  {
    hide WellFormed, FullTags, ShortTags, PlainTags;
    WrappersAre(d);
    var syn := Rendered(dialect);
    assert Wrappers(d)[if dialect == Dsml then 0 else 3] == (syn.paramStart, syn.paramEnd);
  }

  lemma PassesWrapper(dialect: Dialect, d: Reader, i: nat)
    requires IsBlockDialect(dialect) && d.xml == XmlForms() && i < |Wrappers(d)|
    ensures PassesAll(dialect, Wrappers(d)[i])
  {
    hide Wrappers, WellFormed, XmlForms, Rendered, IsName;
    WrapperProbes(d, i);
    RenderedProbes(dialect);
    var u, syn := Wrappers(d)[i].0, Rendered(dialect);
    assert Apart(THINK_START, u) && Apart(THINK_END, u) && Apart(EOS, u) by {
      ProbesApart(THINK_START, u, 1);
      ProbesApart(THINK_END, u, 1);
      EosProbe();
      ProbesApart(EOS, u, if u[1] == BAR[0] then 4 else 1);
    }
    ProbesApart(syn.toolEnd, u, 1);
    ProbesApart(syn.invokeEnd, u, 1);
    assert Apart(Rendered(dialect).toolStart, u) && Apart(Rendered(dialect).invokeStart, u) by {
      RenderedProbes(dialect);
      var syn := Rendered(dialect);
      var k := if i != 0 && i != 3 then 1 else if dialect == Dsml || i == 0 then 11 else 12;
      ProbesApart(syn.toolStart, u, k);
      ProbesApart(syn.invokeStart, u, k);
    }
    if i == (if dialect == Dsml then 0 else 3) {
      OwnWrapper(dialect, d);
    } else if i == 0 || i == 3 {
      ProbesApart(syn.paramStart, u, 11);
    } else {
      ProbesApart(syn.paramStart, u, 1);
    }
  }

  lemma EosProbe()
    ensures |EOS| == 27 && EOS[1] == BAR[0] && EOS[4] == 'e'
  {}

  lemma OwnWrapper(dialect: Dialect, d: Reader)
    requires IsBlockDialect(dialect)
    ensures var i := if dialect == Dsml then 0 else 3;
            i < |Wrappers(d)| && Wrappers(d)[i] == (Rendered(dialect).paramStart, Rendered(dialect).paramEnd)
  {
    hide WellFormed, FullTags, ShortTags, PlainTags;
    WrappersAre(d);
  }

  /** `RenderAssistantTurn` with the reasoning replayed, without the role marker in front. */
  function ReplayedTurn(dialect: Dialect, reasoning: string, content: string, cs: seq<Request>): string {
    THINK_START + reasoning + THINK_END + content + BlockText(Rendered(dialect), cs) + EOS
  }

  /** The round trip of both dialects, over every reasoning the writers accept. The turn reads back exactly when the
      argument bodies that open in the reasoning close there and the reply holds no structural `</think>`, though
      values may hold close tags, `</think>` or the end-of-sentence token. For a content whose own bodies close, the
      second condition is on the content alone. */
  lemma TurnRoundTrip(dialect: Dialect, json: Json, literal: string -> bool, reasoning: string, content: string,
          cs: seq<Request>)
    requires IsBlockDialect(dialect) && cs != []
    requires PlainContent(ReaderOf(dialect, json, literal), content) &&
             Readable(Block(Rendered(dialect), false, json, false), cs)
    ensures var d, syn := ReaderOf(dialect, json, literal), Rendered(dialect);
            var ws := Wrappers(d);
            && (ParseCompletion(d, ReplayedTurn(dialect, reasoning, content, cs), true)
                == Parsed(TrimSpace(content), TrimSpace(reasoning),
                          AllReturned(json, ReadRequests(syn, cs), BlockText(syn, cs)), None)
               <==> BodiesClose(ws, reasoning) && NoCloser(ws, content + BlockText(syn, cs) + EOS))
            && (BodiesClose(ws, content) ==>
               (NoCloser(ws, content + BlockText(syn, cs) + EOS) <==> NoCloser(ws, content)))
  {
    hide WellFormed, Structural, Passable, Writable, PlainContent, Readable, Wrappers, ParseCompletion, BlockText,
         ReadRequests, AllReturned, Table, XmlForms, Unambiguous, EOS, TrimSpace, BodiesClose, NoCloser,
         LastStructural, ParseContent, UpToEos;
    var d, syn := ReaderOf(dialect, json, literal), Rendered(dialect);
    var x := content + BlockText(syn, cs) + EOS;
    RenderedTags(dialect);
    TablesAreUnambiguous(dialect);
    DialectsPass(dialect, json, literal);
    assert ReplayedTurn(dialect, reasoning, content, cs) == THINK_START + reasoning + THINK_END + x;
    ThinkingReads(d, reasoning, x);
    NothingAfter("");
    assert EOS + "" == EOS;
    ReplyReads(d, content, cs, syn, EOS);
    ReadableRenders(Block(syn, false, json, false), cs);
    EosHasNoCloser(Wrappers(d));
    BlockHasNoCloser(Wrappers(d), syn, cs, EOS);
    assert x == content + (BlockText(syn, cs) + EOS);
    if BodiesClose(Wrappers(d), content) {
      CloserInFront(Wrappers(d), content, BlockText(syn, cs) + EOS);
    }
  }

  // ----- turns without calls -----

  /** Content in which no marker begins, even with a tag after it. */
  predicate ContentBeforeTag(d: Reader, content: string) {
    forall j :: 0 <= j < |content| ==> MarkerAt(d, (content + "<")[j..]) == NoMarker
  }

  /** A reply without calls in any dialect, behind any reasoning, comes back under the same exact condition, unless the
      content holds a marker the block readers complain about. */
  lemma PlainTurnRoundTrip(dialect: Dialect, json: Json, literal: string -> bool, reasoning: string, content: string)
    requires ContentBeforeTag(ReaderOf(dialect, json, literal), content)
    ensures var d := ReaderOf(dialect, json, literal);
            var ws := Wrappers(d);
            var back := if !IsXml(dialect) && HasStrayMarker(TrimSpace(content)) then Degraded(content + EOS,
                    StrayMarker)
                        else Parsed(TrimSpace(content), "", [], None);
            && (ParseCompletion(d, THINK_START + reasoning + THINK_END + content + EOS,
                                true) == back.(reasoning := TrimSpace(reasoning))
               <==> BodiesClose(ws, reasoning) && NoCloser(ws, content + EOS))
            && (BodiesClose(ws, content) ==> (NoCloser(ws, content + EOS) <==> NoCloser(ws, content)))
  {
    hide WellFormed, Structural, ContentBeforeTag, Wrappers, ParseContent, ParseCompletion, Table, XmlForms, EOS,
         TrimSpace, BodiesClose, NoCloser, LastStructural, HasStrayMarker;
    var d := ReaderOf(dialect, json, literal);
    assert THINK_START + reasoning + THINK_END + content + EOS == THINK_START + reasoning + THINK_END + (content + EOS);
    WrappersPass(dialect, json, literal);
    ThinkingReads(d, reasoning, content + EOS);
    PlainReads(d, content);
    EosHasNoCloser(Wrappers(d));
    if BodiesClose(Wrappers(d), content) {
      CloserInFront(Wrappers(d), content, EOS);
    }
  }

  /** All dialects share the wrappers. */
  lemma WrappersPass(dialect: Dialect, json: Json, literal: string -> bool)
    ensures Structural(Wrappers(ReaderOf(dialect, json, literal)))
  {
    hide Wrappers, WellFormed, XmlWellFormed, V4, V41, XmlForms, Table, Structural, Passable;
    WrappersAre(ReaderOf(dialect, json, literal));
    WrappersAre(ReaderOf(Dsml, json, literal));
    DialectsPass(Dsml, json, literal);
  }

  lemma PlainReads(d: Reader, content: string)
    requires ContentBeforeTag(d, content)
    ensures ParseContent(d, content + EOS) == PlainMessage(d, content + EOS, content)
  {
    assert MarkerAt(d, EOS) == Stop;
    hide MarkerAt, EOS, PlainMessage, NextMarker;
    var t := content + EOS;
    EosIsOpener();
    var b := content + "<";
    assert t == b + EOS[1..];
    forall j | 0 <= j < |content| ensures MarkerAt(d, t[j..]) == NoMarker {
      assert b[|content|] == '<';
      SettledTextIsContent(d, b, EOS[1..], j);
    }
    assert t[|content|..] == EOS && t[..|content|] == content;
    NextMarkerIs(d, t, |content|);
  }

}
