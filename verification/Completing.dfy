/** When a turn needs no more of the model (dsml/stream.go:140-156): what the decoder's two signals say about the text
    it has read. */
module Completing {
  import opened Text
  import opened ToolText
  import opened Markup
  import opened Calls
  import opened Grammar
  import opened Phases
  import opened Transitions
  import opened Decode
  import opened DecoderState
  import opened DecoderSteps
  import opened EndHandlers
  import opened Keeping

  // ----- a block is over -----

  /** A waiting decoder reports a closed block exactly when the text holds one that is over, whatever it was cut
      into. */
  lemma ClosedWhenOver(s: Snap)
    requires !s.final && s.state != StDone && Waiting(s) && Tracked(s)
    requires Valid(s)
    ensures s.closed <==> BlockOver(s.d, s.thinking, s.full)
  {
    hide Valid, Waiting, Tracked, ReplyCloses, Index, Shape, Books;
    ValidFacts(s);
    if s.state == StThinking {
      StillReasoning(s);
    } else {
      ReplyIsBehind(s);
      if s.state == StContent || s.state == StRaw {
        FlatIsOpen(s);
      } else if IsBlockState(s.state) {
        BlockIsTracked(s);
      } else {
        XmlNeverCloses(s);
      }
    }
  }

  lemma StillReasoning(s: Snap)
    requires s.state == StThinking && Waiting(s) && Shape(s) && Books(s)
    ensures s.thinking && Index(s.full, THINK_END) < 0 && !s.closed
  {
    hide Index, ContentOf, ToolsOf, Unambiguous, HasStanza, StanzaAt;
    var k := |s.full| - |s.buf|;
    IndexIsFirst(s.full, THINK_END);
    IndexIsFirst(s.buf, THINK_END);
    assert forall j :: k <= j <= |s.full| ==> s.full[j..] == s.buf[j - k..];
  }

  /** The reply is the text behind the base. */
  lemma ReplyIsBehind(s: Snap)
    requires s.state != StThinking && !s.final && Tracked(s) && Shape(s)
    ensures ReplyText(s.thinking, s.full) == From(s.full, s.base) && (s.thinking ==> Index(s.full, THINK_END) >= 0)
    ensures TracksAt(s, From(s.full, s.base), "")
  {
    hide Index, TracksAt, Unambiguous;
    assert TracksAt(s, From(s.full, s.base) + "", "");
    assert From(s.full, s.base) + "" == From(s.full, s.base);
    assert s.full[0..] == s.full;
  }

  lemma FlatIsOpen(s: Snap)
    requires (s.state == StContent || s.state == StRaw) && Waiting(s) && Shape(s) && Books(s)
    requires TracksAt(s, From(s.full, s.base), "")
    ensures !s.closed && !ReplyCloses(s.d, From(s.full, s.base))
  {
    hide ContentOf, ToolsOf, Unambiguous, Consumed, MarkerAt, NextMarker, Index;
    if s.state == StContent {
      var r, text := From(s.full, s.base), Consumed(s);
      ReplyIs(s, "");
      assert r + "" == r && s.buf + "" == s.buf;
      forall j | 0 <= j < |r| ensures MarkerAt(s.d, r[j..]) == NoMarker {
        if j >= |text| {
          assert r[j..] == s.buf[j - |text|..];
        }
      }
      NextMarkerIs(s.d, r, |r|);
    }
  }

  lemma XmlNeverCloses(s: Snap)
    requires IsOpenState(s.state) && !IsBlockState(s.state) && Books(s)
    ensures !s.closed && !ReplyCloses(s.d, From(s.full, s.base))
  {
    hide NextMarker, From, OpenAt, Books;
    OpenFields(s);
  }

  lemma BlockIsTracked(s: Snap)
    requires IsBlockState(s.state) && Waiting(s) && Shape(s) && Books(s)
    requires TracksAt(s, From(s.full, s.base), "")
    ensures s.closed <==> ReplyCloses(s.d, From(s.full, s.base))
  {
    hide NextMarker, From, MarkerAt, ScanOpened, Shape, Waiting, SkipSpace, Partial, Classify, Books;
    OpenFields(s);
    assert s.buf + "" == s.buf;
    OnlyAtTheEnd(s);
  }

  /** Only behind the block does what is missing leave it over. */
  lemma OnlyAtTheEnd(s: Snap)
    requires IsBlockState(s.state) && Waiting(s) && Books(s)
    requires s.state == StCheckingToolBlockEnd && s.implicit ==> Classify(s.buf, s.syntax.invokeStart) == No
    ensures s.state == StCheckingToolBlockEnd <==> ClosedBy(s.syntax, s.implicit, ScanFrom(s.d, SpotOf(s), s.buf))
  {
    hide Books, Attr, Classify;
    OpenFields(s);
    match s.state
    case StInToolCalls => TagMissing(BlockOf(s), s.read, s.buf);
    case StInInvokeBody => BodyTagMissing(BlockOf(s), s.read, s.name, s.ps, s.buf);
    case StCheckingToolBlockEnd => EndMissing(s.buf);
    case _ =>
  }

  lemma TagMissing(b: Block, calls: seq<Call>, buf: string)
    requires AwaitsTag(buf, b.syn.invokeStart, if b.implicit then "" else b.syn.toolEnd)
    ensures !ClosedBy(b.syn, b.implicit, ScanBlock(b, buf, calls))
  {
    hide OpensTag, Classify;
    ClassifyIsFinal(buf, b.syn.invokeStart, "");
    NothingThere(b.syn);
    if buf != "" {
      assert SkipSpace(buf) == buf;
    }
  }

  lemma NothingThere(syn: Syntax)
    ensures !OpensTag("", syn.invokeStart) && !OpensTag("", syn.paramStart) && !(syn.toolEnd <= "") &&
            !(syn.invokeEnd <= "")
  {}

  lemma BodyTagMissing(b: Block, calls: seq<Call>, name: string, ps: seq<Param>, buf: string)
    requires AwaitsTag(buf, b.syn.paramStart, b.syn.invokeEnd)
    ensures ScanBody(b, buf, calls, name, ps) == Bad(buf)
  {
    hide OpensTag, Classify;
    ClassifyIsFinal(buf, b.syn.paramStart, "");
    NothingThere(b.syn);
    if buf != "" {
      assert SkipSpace(buf) == buf;
    }
  }

  lemma EndMissing(buf: string)
    requires Partial(buf, EOS)
    ensures SkipSpace(buf) == buf
  {
    EosIsOpener();
  }

  // ----- the end of the sentence -----

  /** No continuation changes the verdict. */
  ghost predicate Decided(d: Reader, thinking: bool, t: string) {
    forall ext: string :: DecideAll(d, thinking, t + ext) == DecideAll(d, thinking, t)
  }

  /** The turn needs no more: its block is over, or nothing that follows matters. */
  ghost predicate Complete(d: Reader, thinking: bool, t: string) {
    BlockOver(d, thinking, t) || Decided(d, thinking, t)
  }

  /** Reasoning is still open and holds a complete tool stanza. */
  predicate StanzaOpen(d: Reader, thinking: bool, t: string) {
    thinking && Index(t, THINK_END) < 0 && HasStanza(d, t)
  }

  /** A waiting decoder is reasoning exactly while no `</think>` has come. */
  lemma ReasoningWhenOpen(s: Snap)
    requires !s.final && Waiting(s) && Tracked(s)
    requires Valid(s)
    ensures s.state == StThinking <==> s.thinking && Index(s.full, THINK_END) < 0
  {
    hide Valid, Waiting, Tracked, Index, Shape, Books;
    ValidFacts(s);
    if s.state == StThinking {
      StillReasoning(s);
    } else {
      ReplyIsBehind(s);
    }
  }

  /** The two signals together. */
  lemma CompleteWhenSignalled(s: Snap)
    requires !s.final && Waiting(s) && Tracked(s)
    requires Valid(s)
    ensures s.closed || s.state == StDone <==> Complete(s.d, s.thinking, s.full)
  {
    hide Valid, Waiting, Tracked, BlockOver, Decided;
    DoneWhenDecided(s);
    if s.state != StDone {
      ClosedWhenOver(s);
    }
  }

  /** A waiting decoder is done exactly when no continuation of its text changes the verdict. */
  lemma DoneWhenDecided(s: Snap)
    requires !s.final && Waiting(s) && Tracked(s)
    requires Valid(s)
    ensures s.state == StDone <==> Decided(s.d, s.thinking, s.full)
  {
    hide Valid, Waiting, Tracked, Index, Shape, Books, Meaning, DecideAll, Decide;
    ValidFacts(s);
    if s.state == StDone {
      forall ext: string ensures DecideAll(s.d, s.thinking, s.full + ext) == s.outcome {
        MeansAt(s, ext);
        DoneMeans(s.d, s.outcome, s.buf + ext);
      }
      assert s.full + "" == s.full;
    } else {
      var ext := GoesOn(s);
      assert s.full + "" == s.full && s.buf + "" == s.buf;
      MeansAt(s, ext);
      MeansAt(s, "");
    }
  }

  lemma MeansAt(s: Snap, ext: string)
    requires Faithful(s.d, s.thinking, s.full, PhaseOf(s), s.buf, s.final) && !s.final
    ensures DecideAll(s.d, s.thinking, s.full + ext) == Meaning(s.d, PhaseOf(s), s.buf + ext)
  {
    hide DecideAll, Meaning, PhaseOf;
  }

  /** A continuation after which the verdict is another. */
  lemma GoesOn(s: Snap) returns (ext: string)
    requires !s.final && Waiting(s) && Tracked(s) && s.state != StDone
    requires Valid(s)
    ensures Meaning(s.d, PhaseOf(s), s.buf + ext) != Meaning(s.d, PhaseOf(s), s.buf)
  {
    hide Valid, Waiting, Tracked, Index, Shape, Books, Meaning, DecideAll, Decide, PhaseOf;
    ValidFacts(s);
    if s.state == StThinking {
      ext := THINK_END + "<";
      ThinkingGoesOn(s);
    } else if s.state == StInParameterValue {
      ext := s.syntax.paramEnd;
      ValueGoesOn(s);
    } else if (s.state == StCheckingToolBlockEnd && s.buf == "") ||
              ((s.state == StGlmAfterCall || s.state == StQwenAfterCall) && SkipSpace(s.buf) == "") {
      ext := "<";
      AcceptedGoesOn(s);
    } else {
      ext := "<";
      ShownWhole(s);
      WholeGoesOn(s);
    }
  }

  /** What is shown whole is shown longer with more of it. */
  lemma WholeGoesOn(s: Snap)
    requires !s.final && Tracked(s) && s.state != StThinking
    requires Meaning(s.d, PhaseOf(s), s.buf) == Verdict(From(s.full, s.base), None)
    requires Valid(s)
    ensures Meaning(s.d, PhaseOf(s), s.buf + "<") != Meaning(s.d, PhaseOf(s), s.buf)
  {
    hide Valid, Tracked, Shape, Books, Meaning, DecideAll, Decide, PhaseOf, EOS;
    ValidFacts(s);
    var r := From(s.full, s.base);
    ReplyDecides(s);
    DecideKeepsBytes(s.d, r + "<");
    EosIsOpener();
    assert (r + "<")[|r|..] == "<";
  }

  lemma ReplyDecides(s: Snap)
    requires !s.final && Tracked(s) && s.state != StThinking && Shape(s) && s.base <= |s.full|
    requires Faithful(s.d, s.thinking, s.full, PhaseOf(s), s.buf, s.final)
    ensures Meaning(s.d, PhaseOf(s), s.buf + "<") == Decide(s.d, From(s.full, s.base) + "<")
  {
    hide Index, Decide, Meaning, PhaseOf, TracksAt, Unambiguous;
    MeansAt(s, "<");
    if s.thinking {
      IndexExtends(s.full, "<", THINK_END);
      DropAppend(s.full, "<", s.base);
    } else {
      assert From(s.full, s.base) == s.full;
    }
  }

  // ----- plain and raw text, and blocks with something missing -----

  lemma ShownWhole(s: Snap)
    requires !s.final && Waiting(s) && s.state != StDone && s.state != StThinking && s.state != StInParameterValue
    requires !(s.state == StCheckingToolBlockEnd && s.buf == "")
    requires !((s.state == StGlmAfterCall || s.state == StQwenAfterCall) && SkipSpace(s.buf) == "")
    requires Valid(s)
    ensures Meaning(s.d, PhaseOf(s), s.buf) == Verdict(From(s.full, s.base), None)
  {
    hide Valid, Shape, Books, Meaning, PhaseOf, Waiting, Consumed, SkipSpace;
    ValidFacts(s);
    ReplyIs(s, "");
    assert From(s.full, s.base) + "" == From(s.full, s.base) && s.buf + "" == s.buf;
    if s.state == StContent || s.state == StRaw {
      FlatShownWhole(s);
    } else {
      OpenShownWhole(s);
    }
  }

  lemma FlatShownWhole(s: Snap)
    requires Waiting(s) && (s.state == StContent || s.state == StRaw)
    ensures Meaning(s.d, PhaseOf(s), s.buf) == Verdict(Consumed(s) + s.buf, None)
  {
    hide Consumed, NextMarker, MarkerAt;
    if s.state == StContent {
      NextMarkerIs(s.d, s.buf, |s.buf|);
    }
  }

  lemma OpenMeans(s: Snap, rest: string)
    requires IsOpenState(s.state)
    ensures Meaning(s.d, PhaseOf(s), rest)
         == Judge(s.d, Consumed(s) + rest, Before(s), s.implicit, ScanFrom(s.d, SpotOf(s), rest))
  {
    hide Consumed, Before, Judge, ScanFrom, SpotOf;
  }

  lemma OpenShownWhole(s: Snap)
    requires Waiting(s) && IsOpenState(s.state) && s.state != StInParameterValue && Books(s)
    requires !(s.state == StCheckingToolBlockEnd && s.buf == "")
    requires !((s.state == StGlmAfterCall || s.state == StQwenAfterCall) && SkipSpace(s.buf) == "")
    ensures Meaning(s.d, PhaseOf(s), s.buf) == Verdict(Consumed(s) + s.buf, None)
  {
    hide Consumed, Judge, ScanFrom, SpotOf, Waiting, Before, Books, Meaning, PhaseOf, Missing;
    OpenMeans(s, s.buf);
    ScanIsMissing(s);
    CutNowhere(s.d, Consumed(s), s.buf, Before(s), s.implicit, ScanFrom(s.d, SpotOf(s), s.buf));
  }

  /** The scan of a block with something missing: it fails, or closes in front of a beginning of what must follow. */
  predicate Missing(d: Reader, buf: string, implicit: bool, scan: Scan) {
    || scan == Bad("")
    || (!Contains(buf, EOS) && (scan == Bad(buf) ||
       (scan.Closed? && scan.rest == buf && (SkipSpace(buf) != "" || (implicit && !IsXml(d.dialect))))))
  }

  lemma CutNowhere(d: Reader, whole: string, buf: string, before: string, implicit: bool, scan: Scan)
    requires Missing(d, buf, implicit, scan)
    ensures Judge(d, whole + buf, before, implicit, scan) == Verdict(whole + buf, None)
  {
    hide Contains, EOS, SkipSpace, CutAfter;
    var w, t := whole + buf, SkipSpace(buf);
    NothingCut(whole, buf);
    assert w[..|w|] + "" == w;
    UncutAtEnd(w);
    if !Contains(buf, EOS) {
      NoEosBehind(buf);
      UncutBehind(whole, buf, t);
    }
  }

  lemma NothingCut(whole: string, buf: string)
    ensures !Contains(buf, EOS) ==> CutAfter(whole + buf, buf) == whole + buf
  {
    hide Index, EOS;
    var w := whole + buf;
    assert w[..|w| - |buf|] + buf == w;
  }

  lemma UncutAtEnd(w: string)
    ensures CutAfter(w, "") == w
  {
    hide Index, EOS;
    EosIsOpener();
    IndexIsFirst("", EOS);
    assert w[..|w|] + "" == w;
  }

  lemma UncutBehind(whole: string, buf: string, t: string)
    requires t == SkipSpace(buf) && !Contains(t, EOS)
    ensures CutAfter(whole + buf, t) == whole + buf
  {
    hide SkipSpace, Contains, CutAfter;
    SkipSpaceIs(buf);
    var k := |buf| - |t|;
    assert whole + buf == whole + buf[..k] + t;
    NothingCut(whole + buf[..k], t);
  }

  lemma NoEosBehind(buf: string)
    requires !Contains(buf, EOS)
    ensures var t := SkipSpace(buf); !Contains(t, EOS) && !(EOS <= t)
  {
    hide Index, EOS, SkipSpace;
    var t := SkipSpace(buf);
    SkipSpaceIs(buf);
    IndexIsFirst(buf, EOS);
    IndexIsFirst(t, EOS);
    assert forall j :: 0 <= j <= |t| ==> t[j..] == buf[|buf| - |t| + j..];
    assert t[0..] == t;
  }

  lemma ScanIsMissing(s: Snap)
    requires Waiting(s) && IsOpenState(s.state) && s.state != StInParameterValue && Books(s)
    requires !(s.state == StCheckingToolBlockEnd && s.buf == "")
    requires !((s.state == StGlmAfterCall || s.state == StQwenAfterCall) && SkipSpace(s.buf) == "")
    ensures Missing(s.d, s.buf, s.implicit, ScanFrom(s.d, SpotOf(s), s.buf))
  {
    hide Attr, Classify, EOS, Books, WellFormed, XmlWellFormed, SkipSpace, GlmAfter, QwenAfter;
    OpenFields(s);
    match s.state
    case StInToolCalls =>
      BlockMissing(BlockOf(s), s.read, s.buf);
      NoEosInTag(s.syntax, s.buf, s.syntax.invokeStart, if s.implicit then "" else s.syntax.toolEnd);
    case StInInvokeBody =>
      BodyTagMissing(BlockOf(s), s.read, s.name, s.ps, s.buf);
      NoEosInTag(s.syntax, s.buf, s.syntax.paramStart, s.syntax.invokeEnd);
    case StInInvoke | StInParameter => NoEosWithoutAngle(s.buf);
    case StCheckingToolBlockEnd =>
      EndMissing(s.buf);
      EosIsOpener();
      NoEosInPart(s.buf, EOS);
    case StGlmAfterCall | StQwenAfterCall =>
      AfterCallMissing(s.d, s.read, s.buf);
      assert SpotOf(s) == AfterCall(s.d, s.read);
    case _ =>
  }

  lemma BlockMissing(b: Block, calls: seq<Call>, buf: string)
    requires AwaitsTag(buf, b.syn.invokeStart, if b.implicit then "" else b.syn.toolEnd)
    ensures ScanBlock(b, buf, calls) == Bad(buf) || (b.implicit && ScanBlock(b, buf, calls) == Closed(calls, buf))
  {
    hide OpensTag, Classify;
    ClassifyIsFinal(buf, b.syn.invokeStart, "");
    NothingThere(b.syn);
    if buf != "" {
      assert SkipSpace(buf) == buf;
    }
  }

  lemma AfterCallMissing(d: Reader, calls: seq<Call>, buf: string)
    requires AwaitsCall(d, SkipSpace(buf))
    ensures ScanFrom(d, AfterCall(d, calls), buf) == Closed(calls, buf) && !Contains(buf, EOS)
  {
    hide SkipSpace, Index, ScanFrom, EOS, XmlWellFormed;
    EosIsOpener();
    XmlTagsNonEmpty(d.xml);
    AfterCallEnds(d, calls, buf);
    var t := SkipSpace(buf);
    SkipSpaceIs(buf);
    SkipSpaceBlank(buf);
    if t != "" {
      if Partial(t, d.xml.callStart) {
        XmlOpens(d.xml);
        NoEosInPart(t, d.xml.callStart);
      } else {
        NoEosInPart(t, EOS);
      }
    } else {
      IndexIsFirst("", EOS);
    }
    NoEosBehindSpaces(buf);
  }

  lemma NoEosBehindSpaces(buf: string)
    requires !Contains(SkipSpace(buf), EOS)
    ensures !Contains(buf, EOS)
  {
    hide SkipSpace, Index, EOS;
    EosIsOpener();
    var t := SkipSpace(buf);
    var k := |buf| - |t|;
    SkipSpaceIs(buf);
    SkipSpaceBlank(buf);
    IndexIsFirst(buf, EOS);
    IndexIsFirst(t, EOS);
    forall j | 0 <= j <= |buf| ensures !(EOS <= buf[j..]) {
      if j < k {
        assert buf[..k][j] == buf[j] == buf[j..][0];
      } else {
        assert t[j - k..] == buf[j..];
      }
    }
  }

  /** A beginning of a tag holds no end-of-sentence token. */
  lemma NoEosInPart(part: string, tag: string)
    requires part <= tag && (IsOpener(tag) || IsCloseTag(tag)) && (UnlikeEos(tag) || (tag == EOS && part != EOS))
    ensures !Contains(part, EOS)
  {
    hide Index, EOS;
    EosIsOpener();
    IndexIsFirst(part, EOS);
    assert part[0..] == part;
    UnlikePart(part, tag);
    forall j | 0 < j <= |part| ensures !(EOS <= part[j..]) {
      if j < |part| {
        assert part[j..][0] == part[j] == tag[j] == tag[1..][j - 1];
      }
    }
  }

  lemma UnlikePart(part: string, tag: string)
    requires part <= tag && (UnlikeEos(tag) || (tag == EOS && part != EOS))
    ensures !(EOS <= part) && EOS[0] == '<'
  {
    EosIsOpener();
  }

  lemma NoEosInTag(syn: Syntax, buf: string, start: string, end: string)
    requires AwaitsTag(buf, start, end) && (start == syn.invokeStart || start == syn.paramStart)
    requires end == "" || end == syn.toolEnd || end == syn.invokeEnd
    ensures !Contains(buf, EOS)
  {
    hide Index, EOS;
    EosIsOpener();
    IndexIsFirst(buf, EOS);
    SyntaxOpens(syn);
    CloseTags(syn);
    EndsUnlikeEos(syn);
    if buf != "" {
      if Classify(buf, start) == PartialTag {
        NoEosInPart(buf, start);
      } else {
        NoEosInPart(buf, end);
      }
    }
  }

  lemma EndsUnlikeEos(syn: Syntax)
    ensures UnlikeEos(syn.toolEnd) && UnlikeEos(syn.invokeEnd)
  {}

  lemma NoEosWithoutAngle(buf: string)
    requires !Contains(buf, ">")
    ensures !Contains(buf, EOS)
  {
    hide Index;
    IndexIsFirst(buf, ">");
    IndexIsFirst(buf, EOS);
    forall j | 0 <= j <= |buf| ensures !(EOS <= buf[j..]) {
      if j + 26 < |buf| {
        assert !(">" <= buf[j + 26..]);
        assert buf[j..][26] == buf[j + 26] == buf[j + 26..][0];
        assert EOS[26] == '>';
      }
    }
  }

  // ----- reasoning, values and accepted blocks -----

  lemma ThinkingGoesOn(s: Snap)
    requires s.state == StThinking && Waiting(s)
    ensures Meaning(s.d, PhaseOf(s), s.buf + (THINK_END + "<")) != Meaning(s.d, PhaseOf(s), s.buf)
  {
    hide Index, Decide;
    var t := s.buf + (THINK_END + "<");
    CloserBehind(s.buf);
    assert t == s.buf + THINK_END + "<";
    assert t[|s.buf| + |THINK_END|..] == "<";
    DecideKeepsBytes(s.d, "<");
    EosIsOpener();
  }

  lemma CloserBehind(buf: string)
    requires !Contains(buf, THINK_END)
    ensures Index(buf + THINK_END + "<", THINK_END) == |buf|
  {
    hide Index;
    var t := buf + THINK_END + "<";
    IndexIsFirst(buf, THINK_END);
    forall j | 0 <= j < |buf| ensures !(THINK_END <= t[j..]) {
      if j + |THINK_END| <= |buf| {
        assert t[j..][..|THINK_END|] == t[j..j + |THINK_END|] == buf[j..j + |THINK_END|] == buf[j..][..|THINK_END|];
      } else {
        assert t[j..][|buf| - j] == t[|buf|] == '<';
      }
    }
    assert t[|buf|..] == THINK_END + "<";
    IndexIs(t, THINK_END, |buf|);
  }

  /** A value that is closed lets every byte of the block be shown, and more of them. */
  lemma ValueGoesOn(s: Snap)
    requires s.state == StInParameterValue && Waiting(s)
    ensures Meaning(s.d, PhaseOf(s), s.buf + s.syntax.paramEnd) != Meaning(s.d, PhaseOf(s), s.buf)
  {
    hide Consumed, Before, ScanBody, BlockParam, Index, WellFormed, Meaning, PhaseOf;
    OpenMeans(s, s.buf);
    OpenMeans(s, s.buf + s.syntax.paramEnd);
    CloseTags(s.syntax);
    TagsNonEmpty(s.syntax);
    var whole, b := Consumed(s), BlockOf(s);
    FirstCloseEndsBody(s.buf, s.syntax.paramEnd, "");
    assert s.buf + s.syntax.paramEnd + "" == s.buf + s.syntax.paramEnd;
    var t := s.buf + s.syntax.paramEnd;
    assert t[|t|..] == "";
    NothingInBody(b, s.read, s.name, s.ps + [BlockParam(b.syn, s.paramName, t[..|s.buf|], s.paramIsString)]);
    assert ScanFrom(s.d, SpotOf(s), t) == Bad("");
    assert ScanFrom(s.d, SpotOf(s), s.buf) == Bad(s.buf);
    assert UpToEos("") == "" by {
      EosIsOpener();
      IndexIsFirst("", EOS);
    }
    assert (whole + t)[..|whole + t|] == whole + t;
  }

  lemma NothingInBody(b: Block, calls: seq<Call>, name: string, ps: seq<Param>)
    ensures ScanBody(b, "", calls, name, ps) == Bad("")
  {
    NothingThere(b.syn);
  }

  lemma AcceptedGoesOn(s: Snap)
    requires Books(s) && ((s.state == StCheckingToolBlockEnd && s.buf == "") ||
             ((s.state == StGlmAfterCall || s.state == StQwenAfterCall) && SkipSpace(s.buf) == ""))
    ensures Meaning(s.d, PhaseOf(s), s.buf + "<") != Meaning(s.d, PhaseOf(s), s.buf)
  {
    hide Consumed, Before, Judge, ScanFrom, Books, SkipSpace, Meaning, PhaseOf, SpotOf;
    OpenFields(s);
    OpenMeans(s, s.buf);
    OpenMeans(s, s.buf + "<");
    EndSpots(s);
    if s.state == StCheckingToolBlockEnd {
      AtEndAccepted(s.d, s.read);
      assert s.buf == "" && s.buf + "<" == "<";
    } else {
      AfterCallAccepted(s.d, s.read, s.buf);
    }
    assert ScanFrom(s.d, SpotOf(s), s.buf) == Closed(s.read, s.buf);
    assert ScanFrom(s.d, SpotOf(s), s.buf + "<") == Closed(s.read, s.buf + "<");
    AcceptedOnce(s.d, Consumed(s) + (s.buf + "<"), Before(s), s.implicit, s.read, s.buf + "<");
    AcceptedNow(s.d, Consumed(s) + s.buf, Before(s), s.implicit, s.read, s.buf);
  }

  lemma EndSpots(s: Snap)
    requires (s.state == StGlmAfterCall ==> s.d.dialect == Glm) && (s.state == StQwenAfterCall ==> s.d.dialect == Qwen)
    ensures s.state == StCheckingToolBlockEnd ==> SpotOf(s) == AtEnd(s.read)
    ensures s.state == StGlmAfterCall || s.state == StQwenAfterCall ==> SpotOf(s) == AfterCall(s.d, s.read)
  {}

  lemma OpenFields(s: Snap)
    requires IsOpenState(s.state) && Books(s)
    ensures (IsBlockState(s.state) <==> !IsXml(s.d.dialect)) && (s.closed <==> s.state == StCheckingToolBlockEnd)
    ensures s.state == StCheckingToolBlockEnd && s.implicit ==> s.buf != ""
    ensures s.state == StGlmAfterCall ==> s.d.dialect == Glm && !s.implicit
    ensures s.state == StQwenAfterCall ==> s.d.dialect == Qwen && !s.implicit
  {
    hide BlockEvents, CallSoFar, ShownToBlock;
  }

  lemma AtEndAccepted(d: Reader, calls: seq<Call>)
    ensures ScanFrom(d, AtEnd(calls), "<") == Closed(calls, "<") && ScanFrom(d, AtEnd(calls), "") == Closed(calls, "")
    ensures SkipSpace("") == "" && SkipSpace("<") == "<"
  {}

  lemma AfterCallAccepted(d: Reader, calls: seq<Call>, buf: string)
    requires SkipSpace(buf) == ""
    ensures ScanFrom(d, AfterCall(d, calls), buf) == Closed(calls, buf)
    ensures ScanFrom(d, AfterCall(d, calls), buf + "<") == Closed(calls, buf + "<") && SkipSpace(buf + "<") == "<"
  {
    hide ScanFrom, SkipSpace, XmlWellFormed;
    XmlOpens(d.xml);
    BlankThenTag(buf);
    AfterCallEnds(d, calls, buf);
    AfterCallEnds(d, calls, buf + "<");
  }

  lemma AcceptedOnce(d: Reader, whole: string, before: string, implicit: bool, calls: seq<Call>, rest: string)
    requires SkipSpace(rest) == "<"
    ensures Judge(d, whole, before, implicit, Closed(calls, rest)).calls == None
  {
    hide SkipSpace, CutAfter, EOS;
    EosIsOpener();
  }

  lemma AcceptedNow(d: Reader, whole: string, before: string, implicit: bool, calls: seq<Call>, rest: string)
    requires SkipSpace(rest) == "" && (IsXml(d.dialect) || !implicit)
    ensures Judge(d, whole, before, implicit, Closed(calls, rest)).calls == Some(calls)
  {
    hide SkipSpace, CutAfter, EOS;
    EosIsOpener();
  }

  lemma {:induction false} BlankThenTag(buf: string)
    requires SkipSpace(buf) == ""
    ensures SkipSpace(buf + "<") == "<"
  {
    if buf == "" {
      assert buf + "<" == "<";
    } else {
      assert (buf + "<")[1..] == buf[1..] + "<";
      BlankThenTag(buf[1..]);
    }
  }
}
