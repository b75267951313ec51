/** Where the stream decoder and the batch reader part: families of texts one accepts and the other does not. */
module Divergence {
  import opened Text
  import opened ToolText
  import opened Markup
  import opened Calls
  import opened Grammar
  import opened Phases
  import opened Transitions
  import opened Decode
  import opened Completion
  import opened StructuralScan
  import opened Encode
  import opened RoundTrip
  import opened XmlEncode
  import opened MessageRoundTrip
  import opened StreamVsBatch

  const NO_BREAK_SPACE := "\U{C2}\U{A0}"

  lemma WideSpaceTrims()
    ensures TrimSpace(UpToEos(NO_BREAK_SPACE)) == "" && !AsciiBlank(UpToEos(NO_BREAK_SPACE))
  {
    var s := NO_BREAK_SPACE;
    EosIsOpener();
    IndexIsFirst(s, EOS);
    assert UpToEos(s) == s;
    assert SpaceAt(s) == 2 && s[2..] == "";
    assert TrimLeft(s) == TrimLeft("") == "";
    assert s[0] == '\U{C2}';
  }

  /** A written block with a no-break space after it: the batch reader trims any Unicode space and returns the
      calls, the stream decoder skips only four ASCII bytes and shows the block as content. */
  lemma WideSpaceAfterBlock(d: Reader, content: string, cs: seq<Request>, syn: Syntax)
    requires PlainContent(d, content) && !IsXml(d.dialect) && syn in d.table && Unambiguous(d.table) &&
             Writable(syn) && cs != []
    requires Readable(Block(syn, false, d.json, false), cs)
    ensures var t := content + BlockText(syn, cs) + NO_BREAK_SPACE;
            ParseContent(d, t).malformed == None && |ParseContent(d, t).calls| == |cs| && Decide(d, t).calls == None
  {
    hide ParseContent, Decide, WellFormed, ScanBlock, BlockText, PlainContent, Readable, Writable, ReadRequests,
         NextMarker, MarkerAt, BatchScan, AsciiBlank, TrimSpace, UpToEos, InvokesText;
    var rest := NO_BREAK_SPACE;
    var t := content + BlockText(syn, cs) + rest;
    WideSpaceTrims();
    ReplyReads(d, content, cs, syn, rest);
    BlockParts(content, syn, cs, rest);
    BlockIsFirst(d, content, syn, InvokesText(syn, cs) + rest);
    BlockReads(d, cs, syn, rest);
    TagsNonEmpty(syn);
    ParsedBlockIsStreamed(d, t, |content| + 2, syn, false, ReadRequests(syn, cs), rest);
  }

  /** A lone invoke element at the bare end of the text: the batch reader returns its call, the stream decoder,
      which accepts a block without wrapper only in front of an end-of-sentence token, shows it as content. */
  lemma BareInvokeAtEnd(d: Reader, c: Request, syn: Syntax)
    requires !IsXml(d.dialect) && syn in d.table && Unambiguous(d.table) && Writable(syn) &&
             Readable(Block(syn, true, d.json, false), [c])
    ensures var t := "\n" + InvokeText(syn, c);
            BatchReturns(d, t, ReadRequest(syn, c)) && Decide(d, t).calls == None
  {
    hide Decide, WellFormed, ScanBlock, InvokeText, Readable, Writable, ReadRequest, NextMarker, MarkerAt, AsciiBlank,
         UpToEos, Unambiguous, Index, EOS, Contains, SkipSpace;
    var t := "\n" + InvokeText(syn, c);
    IsNamed(Block(syn, true, d.json, false), c);
    InvokeIsFirst(d, c, syn);
    BareInvokeScans(d, c, syn);
    ParsedBlockIsStreamed(d, t, 1, syn, true, [ReadRequest(syn, c)], "");
    EndsBare();
  }

  /** The batch reader returns exactly one call, in front of nothing. */
  predicate BatchReturns(d: Reader, t: string, c: Call) {
    ParseContent(d, t).malformed == None && SameCalls(d.json, ParseContent(d, t).calls, [c])
  }

  lemma IsNamed(b: Block, c: Request)
    requires Readable(b, [c])
    ensures c.name != ""
  {
    assert Renderable([c][0]);
  }

  lemma EndsBare()
    ensures !Contains("", EOS) && AsciiBlank(UpToEos(""))
  {
    EosIsOpener();
    IndexIsFirst("", EOS);
  }

  lemma InvokeIsFirst(d: Reader, c: Request, syn: Syntax)
    requires !IsXml(d.dialect) && syn in d.table && Unambiguous(d.table) && Writable(syn) && c.name != ""
    ensures var t := "\n" + InvokeText(syn, c); OpensBlock(d, t, 1, syn, true) && t[1..] == InvokeText(syn, c)
  {
    hide WellFormed, MarkerAt, NextMarker, ParamsText, InvokeTag;
    var s := InvokeText(syn, c);
    var t := "\n" + s;
    assert t[1..] == s && t[0..] == t;
    assert s == InvokeTag(syn, c.name) + ParamsText(syn, PairsOf(c.input));
    InvokeTagReads(syn, c.name, ParamsText(syn, PairsOf(c.input)));
    InvokeMarks(d, syn, s);
    NoMarkerInFront(d, t);
    NextMarkerIs(d, t, 1);
  }

  lemma InvokeMarks(d: Reader, syn: Syntax, s: string)
    requires !IsXml(d.dialect) && syn in d.table && Unambiguous(d.table) && OpensTag(s, syn.invokeStart)
    ensures MarkerAt(d, s) == Opens(syn, true)
  {
    hide ToolStartAt, InvokeAt, WellFormed, Apart, UnlikeEos;
    assert s + "" == s;
    InvokeIsUnlikeEos(syn);
    UnlikeEosIsFinal(s, syn.invokeStart, "");
    var i :| 0 <= i < |d.table| && d.table[i] == syn;
    forall j | 0 <= j < |d.table| ensures Apart(syn.invokeStart, d.table[j].toolStart) {
      ApartIsSymmetric(d.table[j].toolStart, d.table[i].invokeStart);
    }
    NoToolStart(d.table, s, syn.invokeStart);
    InvokeFoundFirst(d.table, syn, s);
  }

  lemma InvokeIsUnlikeEos(syn: Syntax)
    ensures UnlikeEos(syn.invokeStart)
  {}

  lemma {:induction false} InvokeFoundFirst(table: seq<Syntax>, syn: Syntax, s: string)
    requires syn in table && OpensTag(s, syn.invokeStart)
    requires forall i :: 0 <= i < |table| ==> table[i] == syn || Apart(syn.invokeStart, table[i].invokeStart)
    ensures InvokeAt(table, s) == Opens(syn, true)
  {
    if table[0] != syn {
      ApartIsFinal(s, syn.invokeStart, table[0].invokeStart, "") by {
        assert !((table[0].invokeStart) <= s) by {
          ApartIsFinal(s, syn.invokeStart, (table[0].invokeStart), "");
          assert s + "" == s;
        }
      }
      assert s + "" == s;
      InvokeFoundFirst(table[1..], syn, s);
    }
  }

  lemma BareInvokeScans(d: Reader, c: Request, syn: Syntax)
    requires Writable(syn) && Readable(Block(syn, true, d.json, false), [c])
    ensures BatchScan(d, syn, true, InvokeText(syn, c)) == Closed([ReadRequest(syn, c)], "")
  {
    hide WellFormed, InvokeText, ReadRequest, Readable, Writable, SkipSpace;
    var b := BatchBlock(d, syn, true);
    InvokeReads(b, c, [], "");
    assert "\n" + InvokeText(syn, c) + "" == "\n" + InvokeText(syn, c);
    assert [] + [ReadRequest(syn, c)] == [ReadRequest(syn, c)];
    SkipNothing();
    assert ScanBlock(b, "", [ReadRequest(syn, c)]) == Closed([ReadRequest(syn, c)], "");
    BreakInFront(b, InvokeText(syn, c));
  }

  lemma BreakInFront(b: Block, s: string)
    ensures ScanBlock(b, "\n" + s, []) == ScanBlock(b, s, [])
  {
    assert ("\n" + s)[1..] == s;
    assert SkipSpace("\n" + s) == SkipSpace(s);
    BlockSkips(b, "\n" + s, []);
    BlockSkips(b, s, []);
  }

  /** A literal that holds the escaped spelling of its close tag: the stream decoder records it decoded, the
      batch reader as it stands, so the arguments they report differ. */
  lemma EscapedLiteralDiffers(syn: Syntax, json: Json, key: string, raw: string)
    requires HasEscapedClose(raw, syn.paramEnd)
    ensures var ps := [BlockParam(syn, key, raw, false)]; Arguments(json, ps, true) != Arguments(json, ps, false)
  {
    hide Arguments, Unescape, HasEscapedClose, WellFormed;
    var p := BlockParam(syn, key, raw, false);
    ParamDecodes(syn, key, raw, false, json);
    ArgumentsAgree(json, [p]);
    assert IsKept([p], 0) && [p][0] == p;
  }

  /** Such a literal exists for every spelling. */
  lemma EscapedLiteralExists(syn: Syntax)
    ensures HasEscapedClose("&lt;" + syn.paramEnd[1..], syn.paramEnd)
  {
    CloseTags(syn);
    var e := syn.paramEnd[1..];
    var s := "&lt;" + e;
    EscapedTagReads(e, syn.paramEnd);
    assert s[0..] == s;
    assert s[0] == '&';
  }

  /** With reasoning open, the stream decoder ends it at the first `</think>` and the batch reader at the last
      structural one: after a second one they show different replies. */
  lemma FirstOrLastCloser(dialect: Dialect, json: Json, literal: string -> bool)
    requires IsBlockDialect(dialect)
    ensures var d := ReaderOf(dialect, json, literal);
            && DecideAll(d, true, THINK_END + THINK_END).content == THINK_END
            && ParseCompletion(d, THINK_END + THINK_END, true).content == ""
  {
    hide Wrappers, LastStructural, ParseContent, Decide, Inert, EOS, Index, WellFormed, BodiesClose, Table, XmlForms,
         XmlWellFormed;
    var d := ReaderOf(dialect, json, literal);
    var t, ws := THINK_END + THINK_END, Wrappers(d);
    WrappersPass(dialect, json, literal);
    NothingLeft(ws);
    assert THINK_END + "" == THINK_END;
    CloserIsLast(ws, "");
    CloserCloses(ws);
    ScanSplits(ws, THINK_END, THINK_END);
    assert t[|THINK_END| + |THINK_END|..] == "";
    EmptyReply(d);
    assert DecideThinking(d, THINK_END + THINK_END).content == THINK_END by {
      var t := THINK_END + THINK_END;
      IndexIs(t, THINK_END, 0) by {
        assert t[0..] == t;
      }
      assert t[|THINK_END|..] == THINK_END;
      CloserIsContent(d);
    }
  }

  lemma CloserCloses(ws: seq<(string, string)>)
    requires Structural(ws)
    ensures BodiesClose(ws, THINK_END)
  {
    hide WrapperAt, Inert;
    forall j | 0 <= j < |THINK_END| ensures WrapperAt(ws, (THINK_END + "")[j..]).None? {
      forall i | 0 <= i < |ws| ensures !(ws[i].0 <= (THINK_END + "")[j..]) {
        InertAt(THINK_END, ws[i].0, "", j);
      }
      NoWrapper(ws, (THINK_END + "")[j..]);
    }
    InertCloses(ws, THINK_END, "");
    assert THINK_END + "" == THINK_END;
  }

  lemma EmptyReply(d: Reader)
    ensures ParseContent(d, "").content == ""
  {
    hide MarkerAt, UpToEos, TrimSpace, Contains;
    NothingAfter("");
    assert TrimSpace("") == "" && TrimSpace(UpToEos("")) == "" by {
      TrimLeftBlank("");
      assert UpToEos("") == "";
    }
  }

  lemma CloserIsContent(d: Reader)
    requires IsBlockDialect(d.dialect) && d.table == Table(d.dialect)
    ensures Decide(d, THINK_END).content == THINK_END
  {
    hide MarkerAt, ScanOpened, ScanXml, Judge;
    forall j | 0 <= j < |THINK_END| ensures MarkerAt(d, THINK_END[j..]) == NoMarker {
      CloserIsNoMarker(d, j);
    }
    NextMarkerIs(d, THINK_END, |THINK_END|);
  }

  lemma CloserIsNoMarker(d: Reader, j: nat)
    requires IsBlockDialect(d.dialect) && d.table == Table(d.dialect) && j < |THINK_END|
    ensures MarkerAt(d, THINK_END[j..]) == NoMarker
  {
    hide Table, WellFormed;
    var s := THINK_END[j..];
    EosIsOpener();
    forall i | 0 <= i < |d.table|
      ensures |d.table[i].toolStart| > 1 && d.table[i].toolStart[1] != '/' && |d.table[i].invokeStart| > 1 &&
              d.table[i].invokeStart[1] != '/'
    {
      FirstBytes(d.dialect, i);
    }
    ShortOfOpener(d.table, s);
  }

  /** `</think>` and its ends begin no block. */
  lemma {:induction false} ShortOfOpener(table: seq<Syntax>, s: string)
    requires |s| <= 8
    requires s != "" && (s[0] != '<' || (|s| > 1 && s[1] == '/'))
    requires forall i ::
             0 <= i < |table| ==>
                 |table[i].toolStart| > 1 && table[i].toolStart[1] != '/' && |table[i].invokeStart| > 1 &&
                     table[i].invokeStart[1] != '/'
    ensures ToolStartAt(table, s) == NoMarker && InvokeAt(table, s) == NoMarker
  {
    if table != [] {
      ShortOfOpener(table[1..], s);
    }
  }

  /** The other way the splits differ: an argument body that opens before the first `</think>` and never closes
      hides every closer behind it from the structural scan. */
  lemma OpenBodyHides(ws: seq<(string, string)>, t: string)
    requires WrapperAt(ws, t).Some? && !(THINK_END <= t)
    requires var gt := Index(t, ">"); gt < 0 || Index(t[gt + 1..], WrapperAt(ws, t).value.1) < 0
    ensures LastStructural(ws, t, THINK_END) == -1
  {
    hide WrapperAt, Index;
  }

  /** Such a reply. */
  function OpenBody(): string {
    "<arg_key>" + (THINK_END + "hi")
  }

  /** The stream decoder shows its content, the batch reader keeps all of it as reasoning. */
  lemma OpenBodyInReasoning(dialect: Dialect, json: Json, literal: string -> bool)
    ensures var d, t := ReaderOf(dialect, json, literal), OpenBody();
            && DecideAll(d, true, t).content == "hi"
            && ParseCompletion(d, t, true) == Parsed("", ReasoningText(t), [], None)
  {
    hide OpenBody, Wrappers, WrapperAt, LastStructural, ParseContent, Decide, Index, XmlForms, WellFormed, Table,
         ReasoningText;
    var d := ReaderOf(dialect, json, literal);
    OpenBodyFacts(d);
    OpenBodyHides(Wrappers(d), OpenBody());
    assert Index(OpenBody(), THINK_END) == 9 by {
      forall j | 0 <= j < 9 ensures !(THINK_END <= OpenBody()[j..]) {
        assert OpenBody()[j..][0] == OpenBody()[j] && OpenBody()[j..][1] == OpenBody()[j + 1];
        assert THINK_END[0] == '<' && THINK_END[1] == '/';
      }
      IndexIs(OpenBody(), THINK_END, 9);
    }
    PlainWord(d);
  }

  lemma OpenBodyFacts(d: Reader)
    requires d.xml == XmlForms()
    ensures var t := OpenBody();
            && |t| == 19 && t[1] == 'a' && (forall j :: 0 < j < 9 ==> t[j] != '<') && THINK_END <= t[9..] &&
               t[17..] == "hi"
            && !(THINK_END <= t) && WrapperAt(Wrappers(d), t).Some?
            && Index(t, ">") == 8 && Index(t[9..], WrapperAt(Wrappers(d), t).value.1) < 0
  {
    hide Wrappers, WrapperAt, Index, XmlForms, WellFormed;
    var rest := THINK_END + "hi";
    KeyForms();
    KeyIsWrapper(d, rest);
    assert var t := "<arg_key>" + rest;
           Index(t, ">") == 8 && t[9..] == rest && t[1] == 'a' && forall j :: 0 < j < 9 ==> t[j] != '<' by {
      var t := "<arg_key>" + rest;
      assert t[8..][0] == '>';
      forall j | 0 <= j < 8 ensures !(">" <= t[j..]) && (j > 0 ==> t[j] != '<') {
        assert t[j..][0] == t[j] == "<arg_key>"[j];
      }
      IndexIs(t, ">", 8);
    }
    assert rest[2] == 't';
    assert Index(rest, "</arg_key>") < 0 by {
      IndexIsFirst(rest, "</arg_key>");
      assert rest[0..] == rest && rest[..|rest|] == rest;
      assert !("</arg_key>" <= rest);
    }
    assert rest[8..] == OpenBody()[17..];
  }

  lemma KeyForms()
    ensures XmlForms().keyStart == "<arg_key>" && XmlForms().keyEnd == "</arg_key>"
    ensures XmlForms().valueStart == "<arg_value>"
  {
    assert "<" + "arg_key" + ">" == "<arg_key>" && "</" + "arg_key" + ">" == "</arg_key>" &&
           "<" + "arg_value" + ">" == "<arg_value>";
  }

  lemma KeyIsWrapper(d: Reader, rest: string)
    requires d.xml == XmlForms()
    ensures WrapperAt(Wrappers(d), XmlForms().keyStart + rest) == Some((XmlForms().keyStart, XmlForms().keyEnd))
  {
    hide XmlForms, WellFormed, Wrappers, WrapperAt, ProbedAs;
    KeyForms();
    WrappersAre(d);
    var ws, t := Wrappers(d), XmlForms().keyStart + rest;
    forall i | 0 <= i < 5 ensures !(ws[i].0 <= t) {
      assert i < |Wrappers(d)| && !(Wrappers(d)[i].0 <= t) by {
        hide IsOpener;
        WrappersAre(d);
        WrapperProbes(d, i);
        assert Wrappers(d)[i].0[1] != 'a';
      }
    }
    WrapperFound(ws, t, 5);
  }

  lemma {:induction false} WrapperFound(ws: seq<(string, string)>, s: string, n: nat)
    requires n < |ws| && ws[n].0 <= s && forall i :: 0 <= i < n ==> !(ws[i].0 <= s)
    ensures WrapperAt(ws, s) == Some(ws[n])
  {
    if n > 0 {
      assert forall i :: 0 <= i < n - 1 ==> ws[1..][i] == ws[i + 1];
      WrapperFound(ws[1..], s, n - 1);
    }
  }

  lemma PlainWord(d: Reader)
    ensures Decide(d, "hi").content == "hi"
  {
    hide MarkerAt, ScanOpened, ScanXml, Judge;
    forall j | 0 <= j < 2 ensures MarkerAt(d, "hi"[j..]) == NoMarker {
      NoMarkerInFront(d, "hi"[j..]);
    }
    NextMarkerIs(d, "hi", 2);
  }

  /** A null argument is written as an empty string is, in every dialect: the reader cannot tell them apart. */
  lemma NullIsEmpty(syn: Syntax, x: XmlSyntax, key: string)
    ensures var a, b := Argument(key, Null), Argument(key, Str(""));
            a != b && ParamText(syn, a) == ParamText(syn, b) && GlmPair(x, a) == GlmPair(x, b) &&
                QwenPair(x, a) == QwenPair(x, b)
  {
    hide WellFormed, XmlWellFormed, AttrEscape, Escape;
  }
}
