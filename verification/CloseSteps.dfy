/** What closing the decoder shows (dsml/stream.go). */
module CloseSteps {
  import opened Text
  import opened ToolText
  import opened Markup
  import opened Calls
  import opened Grammar
  import opened Phases
  import opened Transitions
  import opened Decode
  import opened DecoderState
  import opened DecoderSteps
  import opened EndHandlers
  import opened XmlHandlers

  // ----- closing -----

  /** Events that show the verdict on the whole text. */
  ghost predicate Concludes(s: Snap, events: seq<Event>) {
    Shows(s.d, events, DecideAll(s.d, s.thinking, s.full))
  }

  lemma AtTheEnd(s: Snap)
    requires s.final
    requires Valid(s)
    ensures Shape(s) && s.base <= s.marker <= |s.full| && Books(s)
    ensures DecideAll(s.d, s.thinking, s.full) == Meaning(s.d, PhaseOf(s), s.buf)
  {
    hide Valid, Shape, Books, Faithful, Meaning, DecideAll, WellFormed, XmlWellFormed;
    ValidFacts(s);
    FaithfulAtEnd(s.d, s.thinking, s.full, PhaseOf(s), s.buf, s.final);
  }

  lemma FlatEnd(s: Snap)
    requires s.final && Finished(s) && (s.state == StThinking || s.state == StContent || s.state == StRaw)
    requires Valid(s)
    ensures Concludes(s, s.emitted)
  {
    hide Valid, Shape, DecideAll, WellFormed, XmlWellFormed, Consumed, ContentOf, ToolsOf, ThinkingBooks;
    AtTheEnd(s);
    assert
      && Meaning(s.d, Thinking, "") == Verdict("", None)
      && Meaning(s.d, Content(Consumed(s)), "") == Verdict(Consumed(s), None)
      && Meaning(s.d, Raw(Consumed(s)), "") == Verdict(Consumed(s), None) by {
      assert DecideThinking(s.d, "") == Verdict("", None);
      assert Decide(s.d, "") == Verdict("", None);
      assert UpToEos("") == "";
      assert Consumed(s) + "" == Consumed(s);
    }
  }

  /** Once the input is over, the reasoning read is all there is. */
  lemma ToldAtEnd(s: Snap)
    requires s.final && Finished(s) && Told(s)
    requires Valid(s)
    ensures Thinned(ReasoningPart(s.thinking, s.full), ReasoningOf(s.emitted))
  {
    hide Valid, DecideAll, Meaning, WellFormed, XmlWellFormed, Thinned, ReasoningOf, Index, HasStanza, StanzaAt,
         ContentOf, ToolsOf, OpenBooks, FlatBooks, Shows;
    AtTheEnd(s);
    if s.state == StThinking {
      IndexIsFirst(s.full, THINK_END);
      assert s.full[..|s.full|] == s.full;
    }
  }

  lemma DoneEnd(s: Snap)
    requires s.final && s.state == StDone
    requires Valid(s)
    ensures Concludes(s, s.emitted)
  {
    hide Valid, Shape, DecideAll, WellFormed, XmlWellFormed, Shows;
    AtTheEnd(s);
    DoneMeans(s.d, s.outcome, s.buf);
  }

  /** An explicit block at the bare end of the input is accepted. */
  lemma BlockEnd(s: Snap)
    requires s.final && s.state == StCheckingToolBlockEnd && s.buf == ""
    requires Valid(s)
    ensures Concludes(s, s.emitted + s.pending) && NoReasoning(s.pending)
  {
    assert !s.implicit && !IsXml(s.d.dialect) by {
      hide WellFormed, XmlWellFormed, BlockEvents, ContentOf, ToolsOf;
    }
    hide Valid, Shape, DecideAll, WellFormed, XmlWellFormed, OpenBooks, Shows, Meaning, NoReasoning;
    AtTheEnd(s);
    BlockShown(s);
    AtEndIsJudged(s.d, Consumed(s), s.full[s.base..s.marker], s.implicit, s.read, "");
    assert JudgeEnd(s.d, Consumed(s) + "", s.full[s.base..s.marker], s.implicit, s.read, "", SkipSpace("")) ==
           Verdict(s.full[s.base..s.marker], Some(s.read));
  }

  /** Calls of the XML dialects at the bare end: accepted, and the white space after them is content. */
  lemma AfterCallEnd(s: Snap)
    requires s.final && IsAfterCall(s.state) && SkipSpace(s.buf) == ""
    requires Valid(s)
    ensures Concludes(s, Shown(s.(emitted := s.emitted + s.pending), s.buf)) && NoReasoning(s.pending)
  {
    hide Valid, Shape, DecideAll, WellFormed, XmlWellFormed, OpenBooks, Meaning, SkipSpace, Shown, BlockEvents,
         ContentOf, ToolsOf, NoReasoning;
    AtTheEnd(s);
    DialectOf(s);
    BlockShown(s);
    ShownIs(s.(emitted := s.emitted + s.pending), s.buf);
    AfterCallBare(s.d, Consumed(s), s.full[s.base..s.marker], s.read, s.buf);
    assert SpotOf(s) == AfterCall(s.d, s.read);
  }

  lemma AfterCallBare(d: Reader, whole: string, before: string, calls: seq<Call>, rest: string)
    requires IsXml(d.dialect) && SkipSpace(rest) == ""
    ensures Meaning(d, InBlock(whole, before, false, AfterCall(d, calls)), rest) == Verdict(before + rest, Some(calls))
  {
    hide GlmName, QwenFn, SkipSpace, GlmAfter, QwenAfter;
    AfterCallEnds(d, calls, rest);
    EosIsOpener();
    assert Meaning(d, InBlock(whole, before, false, AfterCall(d, calls)), rest)
        == JudgeEnd(d, whole + rest, before, false, calls, rest, SkipSpace(rest));
  }

  /** A block cut off by the end of the input is content, every byte of it. */
  lemma CutOffEnd(s: Snap)
    requires s.final && Finished(s) && IsOpenState(s.state) && s.state != StCheckingToolBlockEnd &&
             !IsAfterCall(s.state)
    requires Valid(s)
    ensures |s.buf| <= |s.full| && s.rawStart <= |s.full| - |s.buf|
    ensures Concludes(s, Shown(RawOf(s), s.buf))
  {
    hide Valid, DecideAll, WellFormed, XmlWellFormed, Meaning, Shown, BlockEvents, ContentOf, ToolsOf, OpenBooks,
         Shape, SpotOf, Finished, CutOff, ShownToBlock, Consumed;
    AtTheEnd(s);
    CutOffShown(s);
    CutOffScan(s);
    CutOffMeans(s.d, Consumed(s), s.full[s.base..s.marker], s.implicit, SpotOf(s), s.buf);
    RawShows(s);
    assert |s.buf| <= |s.full| && s.rawStart <= |s.full| - |s.buf| by {
      RawRoom(s);
    }
  }

  lemma CutOffShown(s: Snap)
    requires OpenBooks(s)
    ensures ShownToBlock(s) && (IsBlockState(s.state) ==> !IsXml(s.d.dialect))
  {
    hide WellFormed, XmlWellFormed, BlockEvents, ContentOf, ToolsOf;
  }

  lemma CutOffScan(s: Snap)
    requires s.final && Finished(s) && IsOpenState(s.state) && s.state != StCheckingToolBlockEnd &&
             !IsAfterCall(s.state)
    requires IsBlockState(s.state) ==> !IsXml(s.d.dialect)
    ensures CutOff(s.d, ScanFrom(s.d, SpotOf(s), s.buf), s.implicit)
  {
    hide WellFormed, XmlWellFormed, ScanBlock, ScanBody;
    if s.state == StInToolCalls {
      EmptyScans(BlockOf(s), s.read, s.name, s.ps);
    } else if s.state == StInInvokeBody {
      EmptyScans(BlockOf(s), s.read, s.name, s.ps);
    }
  }

  lemma RawRoom(s: Snap)
    requires Shape(s) && ShownToBlock(s)
    ensures |s.buf| <= |s.full| && s.rawStart <= |s.full| - |s.buf|
  {}

  lemma RawShows(s: Snap)
    requires Shape(s) && ShownToBlock(s)
    ensures Shows(s.d, Shown(RawOf(s), s.buf), Verdict(Consumed(s) + s.buf, None))
  {
    hide WellFormed, XmlWellFormed, Shown, ContentOf, ToolsOf, Consumed;
    var t := RawOf(s);
    RawShape(s);
    ShownIs(t, s.buf);
    assert ContentOf(t.emitted) == Consumed(t) && ToolsOf(t.emitted) == [];
  }

  /** The input ran out: the block failed, or was implicit. */
  predicate CutOff(d: Reader, scan: Scan, implicit: bool) {
    scan == Bad("") || (scan.Closed? && scan.rest == "" && implicit && !IsXml(d.dialect))
  }

  lemma EmptyScans(b: Block, calls: seq<Call>, name: string, ps: seq<Param>)
    ensures ScanBlock(b, "", calls) == Bad("") || (b.implicit && ScanBlock(b, "", calls) == Closed(calls, ""))
    ensures ScanBody(b, "", calls, name, ps) == Bad("")
  {
    assert SkipSpace("") == "";
  }

  lemma CutOffMeans(d: Reader, whole: string, before: string, implicit: bool, spot: Spot, rest: string)
    requires CutOff(d, ScanFrom(d, spot, rest), implicit)
    ensures Meaning(d, InBlock(whole, before, implicit, spot), rest) == Verdict(whole + rest, None)
  {
    hide ScanFrom;
    var all := whole + rest;
    assert all[..|all|] + "" == all;
    assert UpToEos("") == "";
    assert SkipSpace("") == "";
    EosIsOpener();
  }
}
