/** The block grammar's handlers (dsml/stream.go), as steps of the decoder's state. */
module BlockHandlers {
  import opened Text
  import opened ToolText
  import opened Markup
  import opened Calls
  import opened Grammar
  import opened Phases
  import opened Transitions
  import opened Decode
  import opened DecoderState
  import opened DecoderSteps

  // ----- the wrapper -----

  lemma OpeningStep(s: Snap, n: nat)
    requires Valid(s) && s.state == StInToolCalls && !s.seenOp
    ensures AtOpeningTag(s.syntax, s.buf)
    requires n == (if "\n\n" <= s.buf then 2 else 0) + |s.syntax.toolStart|
    ensures n <= |s.buf| && Stepped(s, Move(s, n).(seenOp := true), [])
  {
    hide Stepped, Meaning, ScanBlock, BlockEvents, ContentOf, ToolsOf, Faithful, WellFormed, XmlWellFormed, QwenParams;
    TagsNonEmpty(s.syntax);
    var t := Move(s, n).(seenOp := true);
    forall ext: string ensures ScanFrom(s.d, SpotOf(s), s.buf + ext) == ScanFrom(s.d, SpotOf(t), t.buf + ext) {
      OpeningConsumed(BlockOf(s), s.buf, ext, n);
    }
    BlockStep(s, t, n);
  }

  lemma SkipInBlock(s: Snap)
    requires Valid(s) && s.state == StInToolCalls && s.seenOp
    ensures Valid(Move(s, Spaces(s.buf))) && (Tracked(s) ==> Tracked(Move(s, Spaces(s.buf))))
  {
    hide Tracked, Stepped, Meaning, ScanBlock, BlockEvents, ContentOf, ToolsOf, Faithful, SkipSpace, WellFormed,
         XmlWellFormed, ScanBody;
    var t := Move(s, Spaces(s.buf));
    SpacesAre(s.buf);
    forall ext: string ensures ScanFrom(s.d, SpotOf(s), s.buf + ext) == ScanFrom(s.d, SpotOf(t), t.buf + ext) {
      BlockSpaces(BlockOf(s), s.read, s.buf, ext);
    }
    BlockStep(s, t, Spaces(s.buf));
  }

  lemma BlockClosesStep(s: Snap, n: nat)
    requires n == |s.syntax.toolEnd| && s.state == StInToolCalls && s.seenOp && !s.implicit && s.syntax.toolEnd <= s.buf
    requires Valid(s)
    ensures Stepped(s, Move(s, n).(closed := true, state := StCheckingToolBlockEnd), [])
  {
    hide Valid, Stepped, SpotsAgree, OpenBooks, WellFormed;
    TagsNonEmpty(s.syntax);
    BlockCloseScan(s.d, BlockOf(s), s.read, s.buf, s.final);
    BlockClosedBooks(s, n);
    BlockStep(s, Move(s, n).(closed := true, state := StCheckingToolBlockEnd), n);
  }

  lemma BlockClosedBooks(s: Snap, n: nat)
    requires s.state == StInToolCalls && s.seenOp && !s.implicit
    ensures var t := Move(s, n).(closed := true, state := StCheckingToolBlockEnd);
            OpenBooks(s) && n <= |s.buf| && Shape(t) ==> OpenBooks(t)
  {
    hide BlockEvents, ContentOf, ToolsOf, WellFormed, ParamEvents, Collect, HasDuplicate;
  }

  lemma BlockCloseScan(d: Reader, b: Block, calls: seq<Call>, buf: string, final: bool)
    requires !b.implicit && b.syn.toolEnd <= buf
    ensures SpotsAgree(d, AtBlock(b, calls), buf, AtEnd(calls), buf[|b.syn.toolEnd|..], final)
  {
    hide ScanBlock, WellFormed;
    forall ext: string
      ensures ScanFrom(d, AtBlock(b, calls), buf + ext) == ScanFrom(d, AtEnd(calls), buf[|b.syn.toolEnd|..] + ext)
    {
      BlockCloses(b, calls, buf, ext);
    }
  }

  lemma InvokeOpensStep(s: Snap)
    requires Valid(s) && s.state == StInToolCalls && s.seenOp && Classify(s.buf, s.syntax.invokeStart) == Yes
    requires !s.implicit ==> !(s.syntax.toolEnd <= s.buf)
    ensures Stepped(s, s.(state := StInInvoke), [])
  {
    hide Stepped, Meaning, ScanBlock, ScanInvoke, BlockEvents, ContentOf, ToolsOf, Faithful, XmlWellFormed, SkipSpace,
         QwenFnEnd, Valid, Unambiguous;
    var t := s.(state := StInInvoke);
    forall ext: string ensures ScanFrom(s.d, SpotOf(s), s.buf + ext) == ScanFrom(s.d, SpotOf(t), t.buf + ext) {
      ClassifyIsFinal(s.buf, s.syntax.invokeStart, ext);
      ApartIsFinal(s.buf, s.syntax.invokeStart, s.syntax.toolEnd, ext);
      InvokeOpens(BlockOf(s), s.read, s.buf + ext);
    }
    assert s.buf[0..] == s.buf;
    BlockStep(s, t, 0);
  }

  /** An implicit block ends at text that is no invoke, be it now or because the input is over. */
  lemma ImplicitClosesStep(s: Snap)
    requires Valid(s) && s.state == StInToolCalls && s.seenOp && s.implicit && s.calls != []
    requires s.buf != "" && !IsAsciiSpace(s.buf[0]) && NoInvoke(BlockOf(s), s.buf, s.final)
    ensures Stepped(s, s.(closed := true, state := StCheckingToolBlockEnd), [])
  {
    hide Stepped, Meaning, SpotsAgree, BlockEvents, ContentOf, ToolsOf, Faithful, WellFormed, Classify;
    var t := s.(closed := true, state := StCheckingToolBlockEnd);
    assert s.buf[0..] == s.buf;
    assert s.read != [] && s.d == s.d;
    ImplicitEnds(s.d, BlockOf(s), s.read, s.buf, s.final);
    BlockStep(s, t, 0);
  }

  /** No invoke begins here, now or, if the input is over, ever. */
  predicate NoInvoke(b: Block, buf: string, final: bool) {
    || Classify(buf, b.syn.invokeStart) == No
    || (final && Classify(buf, b.syn.invokeStart) == PartialTag)
  }

  lemma ImplicitEnds(d: Reader, b: Block, calls: seq<Call>, buf: string, final: bool)
    requires b.implicit && calls != [] && buf != "" && !IsAsciiSpace(buf[0]) && NoInvoke(b, buf, final)
    ensures SpotsAgree(d, AtBlock(b, calls), buf, AtEnd(calls), buf, final)
  {
    hide Stepped, ScanBlock, OpensTag, WellFormed, Classify, SkipSpace, XmlWellFormed;
    forall ext: string | final ==> ext == ""
      ensures ScanFrom(d, AtBlock(b, calls), buf + ext) == ScanFrom(d, AtEnd(calls), buf + ext)
    {
      NoInvokeStays(b, buf, ext, final);
      NonSpaceStays(buf, ext);
      ImplicitCloses(b, calls, buf + ext);
    }
  }

  lemma NoInvokeStays(b: Block, buf: string, ext: string, final: bool)
    requires NoInvoke(b, buf, final) && (final ==> ext == "")
    ensures !OpensTag(buf + ext, b.syn.invokeStart)
  {
    ClassifyIsFinal(buf, b.syn.invokeStart, ext);
    if final {
      assert buf + ext == buf;
    }
  }

  lemma NonSpaceStays(b: string, ext: string)
    requires b != "" && !IsAsciiSpace(b[0])
    ensures SkipSpace(b + ext) == b + ext && SkipSpace(b) == b
  {
    assert (b + ext)[0] == b[0];
  }

  /** Neither a close tag nor an invoke can still form: the block is malformed. */
  lemma BlockRejectsStep(s: Snap)
    requires Valid(s) && s.state == StInToolCalls && s.seenOp
    requires s.buf != "" && !IsAsciiSpace(s.buf[0])
    requires if s.implicit then s.calls == []
             else !(s.syntax.toolEnd <= s.buf) && (s.final || !Partial(s.buf, s.syntax.toolEnd))
    requires NoInvoke(BlockOf(s), s.buf, s.final)
    ensures Rejects(s, 0)
  {
    assert SpotFails(s.d, AtBlock(BlockOf(s), s.read), s.buf, s.buf, s.final) by {
      hide Stepped, ScanBlock, OpensTag, WellFormed, Classify, SkipSpace;
      forall ext: string | s.final ==> ext == ""
        ensures ScanFrom(s.d, AtBlock(BlockOf(s), s.read), s.buf + ext) == Bad(s.buf + ext)
      {
        NoInvokeStays(BlockOf(s), s.buf, ext, s.final);
        NonSpaceStays(s.buf, ext);
        StillNoCloser(s.buf, BlockOf(s).syn.toolEnd, ext, s.final || BlockOf(s).implicit);
        BlockRejects(BlockOf(s), s.read, s.buf + ext);
      }
    }
    hide Stepped, Meaning, SpotFails, BlockEvents, ContentOf, ToolsOf, Faithful, WellFormed, Classify;
    assert s.buf[0..] == s.buf;
    assert s.calls == [] <==> s.read == [];
    BlockRaw(s, 0);
    assert Move(s, 0) == s;
  }

  lemma StillNoCloser(buf: string, tag: string, ext: string, final: bool)
    ensures !(tag <= buf) && (if final then ext == "" else !Partial(buf, tag)) ==> !(tag <= buf + ext)
  {
    if !final && !(tag <= buf) && !Partial(buf, tag) {
      NotPartialIsFinal(buf, tag, ext);
    }
    assert buf + "" == buf;
  }

  // ----- invoke headers -----

  /** The state after `<invoke name="...">`. */
  function InvokeEntered(s: Snap, n: nat, name: string): Snap {
    Move(s, n).(calls := s.calls + [Pending(name, "")], args := [], dup := false,
                pending := s.pending + [CallStart(|s.calls|, name)], state := StInInvokeBody, name := name, ps := [])
  }

  lemma InvokeHeaderStep(s: Snap)
    requires Valid(s) && s.state == StInInvoke && Index(s.buf, ">") >= 0
    ensures match InvokeHeader(s.buf)
            case None => Rejects(s, 0)
            case Some(h) => Stepped(s, InvokeEntered(s, Index(s.buf, ">") + 1, h.name), [])
  {
    hide Stepped, BlockEvents, ContentOf, ToolsOf, InvokeHeader, WellFormed, XmlWellFormed, Index, Valid, Unambiguous,
         SpotsAgree, SpotFails, Rejects, OpenBooks;
    InvokeHeaderScan(s.d, BlockOf(s), s.read, s.buf, s.final);
    match InvokeHeader(s.buf)
    case None =>
      assert s.buf[0..] == s.buf;
      BlockRaw(s, 0);
    case Some(h) =>
      var n := Index(s.buf, ">") + 1;
      InvokeEnteredBooks(s, n, h.name);
      BlockStep(s, InvokeEntered(s, n, h.name), n);
  }

  lemma InvokeHeaderScan(d: Reader, b: Block, calls: seq<Call>, buf: string, final: bool)
    requires Index(buf, ">") >= 0
    ensures match InvokeHeader(buf)
            case None => SpotFails(d, AtInvoke(b, calls), buf, buf, final)
            case Some(h) =>
              SpotsAgree(d, AtInvoke(b, calls), buf, AtBody(b, calls, h.name, []), From(buf, Index(buf, ">") +
                  1), final)
  {
    hide Stepped, ScanInvoke, ScanBody, WellFormed, InvokeHeader, Index, Attr;
    match InvokeHeader(buf)
    case None =>
      forall ext: string ensures ScanFrom(d, AtInvoke(b, calls), buf + ext) == Bad(buf + ext) {
        InvokeRead(b, calls, buf, ext);
      }
    case Some(h) =>
      var rest := buf[Index(buf, ">") + 1..];
      forall ext: string
        ensures ScanFrom(d, AtInvoke(b, calls), buf + ext) == ScanFrom(d, AtBody(b, calls, h.name, []), rest + ext)
      {
        InvokeRead(b, calls, buf, ext);
      }
  }

  lemma InvokeEnteredBooks(s: Snap, n: nat, name: string)
    requires n <= |s.buf|
    ensures var t := InvokeEntered(s, n, name); s.state == StInInvoke && Shape(t) && OpenBooks(s) ==> OpenBooks(t)
  {
    hide Stepped, BlockEvents, ContentOf, ToolsOf, WellFormed;
    assert ParamEvents(s.d.json, |s.read|, []) == [];
    assert Collect(s.d.json, [], true) == [];
    assert !HasDuplicate([]);
    assert s.pending + [] == s.pending;
  }

  /** A tag cut off by the end of the input is malformed. */
  lemma InvokeCutStep(s: Snap)
    requires Valid(s) && s.state == StInInvoke && Index(s.buf, ">") < 0 && s.final
    ensures Rejects(s, 0)
  {
    hide Stepped, Meaning, ScanBody, BlockEvents, ContentOf, ToolsOf, Faithful, WellFormed;
    assert s.buf[0..] == s.buf && s.buf + "" == s.buf;
    assert ScanFrom(s.d, SpotOf(s), s.buf) == Bad(s.buf);
    BlockRaw(s, 0);
    assert Move(s, 0) == s;
  }

  // ----- invoke bodies -----

  lemma SkipInBody(s: Snap)
    requires Valid(s) && s.state == StInInvokeBody
    ensures Valid(Move(s, Spaces(s.buf))) && (Tracked(s) ==> Tracked(Move(s, Spaces(s.buf))))
  {
    hide Tracked, Stepped, Meaning, ScanBody, BlockEvents, ContentOf, ToolsOf, Faithful, SkipSpace, WellFormed, GlmName;
    var t := Move(s, Spaces(s.buf));
    SpacesAre(s.buf);
    forall ext: string ensures ScanFrom(s.d, SpotOf(s), s.buf + ext) == ScanFrom(s.d, SpotOf(t), t.buf + ext) {
      BodySpaces(BlockOf(s), s.read, s.name, s.ps, s.buf, ext);
    }
    BlockStep(s, t, Spaces(s.buf));
  }

  /** The events that close a call. */
  function ClosingEvents(s: Snap, arguments: string): seq<Event> {
    [ArgumentsDelta(|s.read|, if s.dup || s.ps == [] then arguments else "}"), CallEnd(|s.read|, arguments)]
  }

  function InvokeLeft(s: Snap, n: nat, arguments: string): Snap
    requires s.calls != []
  {
    Move(s, n).(calls := s.calls[..|s.calls| - 1] + [Pending(s.calls[|s.calls| - 1].name, arguments)],
                pending := s.pending + ClosingEvents(s, arguments), args := [], state := StInToolCalls,
                read := s.read + [Call(s.name, s.ps)])
  }

  /** `completeInvoke`: the call is recorded when its arguments are valid JSON, else the block is malformed. */
  lemma InvokeClosesStep(s: Snap, n: nat, arguments: string)
    requires n == |s.syntax.invokeEnd| && arguments == BuildJson(s.d.json, s.args)
    requires s.state == StInInvokeBody && s.syntax.invokeEnd <= s.buf && s.calls != []
    requires Valid(s)
    ensures if s.d.json.valid(arguments) then Stepped(s, InvokeLeft(s, n, arguments), []) else Rejects(s, n)
  {
    hide Stepped, Rejects, Valid, SpotsAgree, SpotFails, BuildJson, WellFormed, OpenBooks, XmlWellFormed, SkipSpace,
         Unambiguous;
    TagsNonEmpty(s.syntax);
    ArgumentsSoFar(s);
    InvokeEndScan(s.d, BlockOf(s), s.read, s.name, s.ps, s.buf, s.final);
    if s.d.json.valid(arguments) {
      InvokeLeftBooks(s, n, arguments);
      var t := InvokeLeft(s, n, arguments);
      InvokeLeftSpots(s, t);
      BlockStep(s, t, n);
    } else {
      BlockRaw(s, n);
    }
  }

  lemma InvokeLeftSpots(s: Snap, t: Snap)
    requires s.state == StInInvokeBody && t.state == StInToolCalls && t.seenOp &&
             t.read == s.read + [Call(s.name, s.ps)]
    requires t.d == s.d && t.syntax == s.syntax && t.implicit == s.implicit
    ensures SpotOf(s) == AtBody(BlockOf(s), s.read, s.name, s.ps)
    ensures SpotOf(t) == AtBlock(BlockOf(s), s.read + [Call(s.name, s.ps)])
  {}

  lemma ArgumentsSoFar(s: Snap)
    requires s.state == StInInvokeBody
    requires Valid(s)
    ensures BuildJson(s.d.json, s.args) == Arguments(s.d.json, s.ps, true) && s.seenOp
  {
    hide Faithful, BlockEvents, ContentOf, ToolsOf, WellFormed, XmlWellFormed, ParamEvents, Collect, HasDuplicate,
         BuildJson, ShownToBlock;
  }

  lemma InvokeEndScan(d: Reader, b: Block, calls: seq<Call>, name: string, ps: seq<Param>, buf: string, final: bool)
    requires b.syn.invokeEnd <= buf
    ensures var rest := buf[|b.syn.invokeEnd|..];
            if b.json.valid(Arguments(b.json, ps, b.live))
            then SpotsAgree(d, AtBody(b, calls, name, ps), buf, AtBlock(b, calls + [Call(name, ps)]), rest, final)
            else SpotFails(d, AtBody(b, calls, name, ps), buf, rest, final)
  {
    hide ScanBlock, ScanBody, WellFormed, Arguments, Index;
    var rest := buf[|b.syn.invokeEnd|..];
    if b.json.valid(Arguments(b.json, ps, b.live)) {
      forall ext: string
        ensures ScanFrom(d, AtBody(b, calls, name, ps), buf + ext) ==
                ScanFrom(d, AtBlock(b, calls + [Call(name, ps)]), rest + ext)
      {
        InvokeCloses(b, calls, name, ps, buf, ext);
      }
    } else {
      forall ext: string ensures ScanFrom(d, AtBody(b, calls, name, ps), buf + ext) == Bad(rest + ext) {
        InvokeCloses(b, calls, name, ps, buf, ext);
      }
    }
  }

  lemma InvokeLeftBooks(s: Snap, n: nat, arguments: string)
    requires n <= |s.buf| && s.calls != [] && s.state == StInInvokeBody && arguments == Arguments(s.d.json, s.ps, true)
    ensures var t := InvokeLeft(s, n, arguments); Shape(t) && OpenBooks(s) ==> OpenBooks(t)
  {
    hide Stepped, ContentOf, ToolsOf, Arguments, ParamEvents, WellFormed, XmlWellFormed;
    var t := InvokeLeft(s, n, arguments);
    if Shape(t) && OpenBooks(s) {
      assert s.pending + ClosingEvents(s, arguments) == BlockEvents(s.d.json, false, s.read + [Call(s.name, s.ps)]) by {
        hide HasDuplicate, Collect;
        var c := Call(s.name, s.ps);
        assert (s.read + [c])[..|s.read|] == s.read;
        assert CallSoFar(s) + ClosingEvents(s, arguments) == CallEvents(s.d.json, |s.read|, c);
      }
    }
  }

  lemma ParamOpensStep(s: Snap)
    requires Valid(s) && s.state == StInInvokeBody && Classify(s.buf, s.syntax.paramStart) == Yes &&
             !(s.syntax.invokeEnd <= s.buf)
    ensures Stepped(s, s.(state := StInParameter), [])
  {
    hide Stepped, Meaning, SpotsAgree, BlockEvents, ContentOf, ToolsOf, Faithful, WellFormed, Classify, Valid,
         XmlWellFormed, SkipSpace, Unambiguous;
    var t := s.(state := StInParameter);
    ParamStartScan(s.d, BlockOf(s), s.read, s.name, s.ps, s.buf, s.final);
    assert s.buf[0..] == s.buf;
    BlockStep(s, t, 0);
  }

  lemma ParamStartScan(d: Reader, b: Block, calls: seq<Call>, name: string, ps: seq<Param>, buf: string, final: bool)
    requires Classify(buf, b.syn.paramStart) == Yes
    ensures SpotsAgree(d, AtBody(b, calls, name, ps), buf, AtParam(b, calls, name, ps), buf, final)
  {
    hide Stepped, ScanBody, ScanParam, OpensTag;
    forall ext: string
      ensures ScanFrom(d, AtBody(b, calls, name, ps), buf + ext) == ScanFrom(d, AtParam(b, calls, name, ps), buf + ext)
    {
      ClassifyIsFinal(buf, b.syn.paramStart, ext);
      ApartIsFinal(buf, b.syn.paramStart, b.syn.invokeEnd, ext);
      ParamOpens(b, calls, name, ps, buf + ext);
    }
  }

  lemma BodyRejectsStep(s: Snap)
    requires Valid(s) && s.state == StInInvokeBody && s.buf != "" && !IsAsciiSpace(s.buf[0])
    requires !(s.syntax.invokeEnd <= s.buf) && (s.final || !Partial(s.buf, s.syntax.invokeEnd))
    requires NoParam(BlockOf(s), s.buf, s.final)
    ensures Rejects(s, 0)
  {
    hide Stepped, Meaning, SpotFails, BlockEvents, ContentOf, ToolsOf, Faithful, WellFormed, Classify;
    assert s.buf[0..] == s.buf;
    BodyFailsHere(s.d, BlockOf(s), s.read, s.name, s.ps, s.buf, s.final);
    BlockRaw(s, 0);
    assert Move(s, 0) == s;
  }

  /** No parameter begins here, now or, if the input is over, ever. */
  predicate NoParam(b: Block, buf: string, final: bool) {
    || Classify(buf, b.syn.paramStart) == No
    || (final && Classify(buf, b.syn.paramStart) == PartialTag)
  }

  lemma BodyFailsHere(d: Reader, b: Block, calls: seq<Call>, name: string, ps: seq<Param>, buf: string, final: bool)
    requires buf != "" && !IsAsciiSpace(buf[0]) && NoParam(b, buf, final)
    requires !(b.syn.invokeEnd <= buf) && (final || !Partial(buf, b.syn.invokeEnd))
    ensures SpotFails(d, AtBody(b, calls, name, ps), buf, buf, final)
  {
    hide Stepped, ScanBody, OpensTag, WellFormed, Classify, SkipSpace;
    forall ext: string | final ==> ext == ""
      ensures ScanFrom(d, AtBody(b, calls, name, ps), buf + ext) == Bad(buf + ext)
    {
      ClassifyIsFinal(buf, b.syn.paramStart, ext);
      assert buf + "" == buf;
      NonSpaceStays(buf, ext);
      StillNoCloser(buf, b.syn.invokeEnd, ext, final);
      BodyRejects(b, calls, name, ps, buf + ext);
    }
  }

  // ----- parameters -----

  function ParamEntered(s: Snap, n: nat, h: Header): Snap {
    Move(s, n).(paramName := h.name, paramIsString := h.isString, state := StInParameterValue)
  }

  lemma ParamHeaderStep(s: Snap, n: nat, h: Header)
    requires n == Index(s.buf, ">") + 1 && 0 < n <= |s.buf| && ParamHeader(s.buf) == Some(h)
    requires Valid(s) && s.state == StInParameter
    ensures Stepped(s, ParamEntered(s, n, h), [])
  {
    hide Stepped, Valid, OpenBooks, SpotsAgree, ParamHeader, WellFormed, Index, Unambiguous;
    ParamHeaderScan(s.d, BlockOf(s), s.read, s.name, s.ps, s.buf, s.final);
    ParamEnteredBooks(s, n, h);
    BlockStep(s, ParamEntered(s, n, h), n);
  }

  lemma ParamHeaderRejectsStep(s: Snap)
    requires Index(s.buf, ">") >= 0 && ParamHeader(s.buf) == None
    requires Valid(s) && s.state == StInParameter
    ensures Rejects(s, 0)
  {
    hide Stepped, Valid, OpenBooks, SpotFails, ParamHeader, WellFormed, Index;
    ParamHeaderScan(s.d, BlockOf(s), s.read, s.name, s.ps, s.buf, s.final);
    assert s.buf[0..] == s.buf;
    BlockRaw(s, 0);
    assert Move(s, 0) == s;
  }

  lemma ParamEnteredBooks(s: Snap, n: nat, h: Header)
    requires n <= |s.buf|
    ensures var t := ParamEntered(s, n, h); s.state == StInParameter && Shape(t) && OpenBooks(s) ==> OpenBooks(t)
  {
    hide Stepped, BlockEvents, ContentOf, ToolsOf, WellFormed, ParamEvents, Collect, HasDuplicate;
  }

  lemma ParamHeaderScan(d: Reader, b: Block, calls: seq<Call>, name: string, ps: seq<Param>, buf: string, final: bool)
    requires Index(buf, ">") >= 0
    ensures match ParamHeader(buf)
            case None => SpotFails(d, AtParam(b, calls, name, ps), buf, buf, final)
            case Some(h) =>
              SpotsAgree(d, AtParam(b, calls, name, ps), buf, AtValue(b, calls, name, ps, h.name, h.isString),
                         buf[Index(buf, ">") + 1..], final)
  {
    hide Stepped, ScanParam, ScanValue, WellFormed, ParamHeader, Index, Attr;
    match ParamHeader(buf)
    case None =>
      forall ext: string ensures ScanFrom(d, AtParam(b, calls, name, ps), buf + ext) == Bad(buf + ext) {
        ParamRead(b, calls, name, ps, buf, ext);
      }
    case Some(h) =>
      var rest := buf[Index(buf, ">") + 1..];
      var t := AtValue(b, calls, name, ps, h.name, h.isString);
      forall ext: string ensures ScanFrom(d, AtParam(b, calls, name, ps), buf + ext) == ScanFrom(d, t, rest + ext) {
        ParamRead(b, calls, name, ps, buf, ext);
      }
  }

  lemma ParamCutStep(s: Snap)
    requires Valid(s) && s.state == StInParameter && Index(s.buf, ">") < 0 && s.final
    ensures Rejects(s, 0)
  {
    hide Stepped, Meaning, ScanValue, BlockEvents, ContentOf, ToolsOf, Faithful, WellFormed, XmlWellFormed, SkipSpace,
         Index, ScanBody;
    assert s.buf[0..] == s.buf && s.buf + "" == s.buf;
    assert ScanFrom(s.d, SpotOf(s), s.buf) == Bad(s.buf);
    BlockRaw(s, 0);
    assert Move(s, 0) == s;
  }

  /** The parameter read when its close tag is found. */
  function ParamFound(s: Snap): Param
    requires Index(s.buf, s.syntax.paramEnd) >= 0
  {
    BlockParam(s.syntax, s.paramName, s.buf[..Index(s.buf, s.syntax.paramEnd)], s.paramIsString)
  }

  /** The live fragment of a parameter: none once a key has repeated. */
  function FragmentEvents(s: Snap, p: Param, dup: bool): seq<Event> {
    if dup then []
    else [ArgumentsDelta(|s.read|, (if s.args == [] then "{" else ", ") + s.d.json.quote(p.key) + ": " +
        Fragment(s.d.json, p, false))]
  }

  function ValueTaken(s: Snap, n: nat, p: Param, dup: bool): Snap {
    Move(s, n).(dup := dup, pending := s.pending + FragmentEvents(s, p, dup), state := StInInvokeBody,
                args := SetArg(s.args, p.key, Fragment(s.d.json, p, true)), ps := s.ps + [p])
  }

  lemma ValueStep(s: Snap, n: nat, p: Param, dup: bool)
    requires Index(s.buf, s.syntax.paramEnd) >= 0
    requires n == Index(s.buf, s.syntax.paramEnd) + |s.syntax.paramEnd| <= |s.buf| && p == ParamFound(s)
    requires dup == (s.dup || HasKey(s.args, p.key))
    requires Valid(s) && s.state == StInParameterValue
    ensures Stepped(s, ValueTaken(s, n, p, dup), [])
  {
    hide Stepped, Valid, SpotsAgree, Fragment, SetArg, HasKey, WellFormed, Index, OpenBooks, FragmentEvents,
         BlockParam, Shape;
    TagsNonEmpty(s.syntax);
    ValueScan(s.d, BlockOf(s), s.read, s.name, s.ps, s.paramName, s.paramIsString, s.buf, s.final);
    ValueTakenBooks(s, n, p, dup);
    var t := ValueTaken(s, n, p, dup);
    assert SpotOf(t) == AtBody(BlockOf(s), s.read, s.name, s.ps + [p]);
    assert s.buf[n..] == t.buf;
    BlockStep(s, t, n);
  }

  lemma ValueScan(d: Reader, b: Block, calls: seq<Call>, name: string, ps: seq<Param>, key: string, isString: bool,
          buf: string, final: bool)
    requires Index(buf, b.syn.paramEnd) >= 0
    ensures var end := Index(buf, b.syn.paramEnd);
            SpotsAgree(d, AtValue(b, calls, name, ps, key, isString), buf,
                       AtBody(b, calls, name, ps + [BlockParam(b.syn, key, Until(buf, end), isString)]),
                       From(buf, end + |b.syn.paramEnd|), final)
  {
    hide Stepped, ScanValue, ScanBody, WellFormed, BlockParam, Index;
    var end := Index(buf, b.syn.paramEnd);
    var t := AtBody(b, calls, name, ps + [BlockParam(b.syn, key, buf[..end], isString)]);
    var rest := buf[end + |b.syn.paramEnd|..];
    forall ext: string
      ensures ScanFrom(d, AtValue(b, calls, name, ps, key, isString), buf + ext) == ScanFrom(d, t, rest + ext)
    {
      ValueRead(b, calls, name, ps, key, isString, buf, ext);
    }
  }

  lemma ValueTakenBooks(s: Snap, n: nat, p: Param, dup: bool)
    requires n <= |s.buf| && s.state == StInParameterValue
    requires dup == (s.dup || HasKey(s.args, p.key))
    ensures var t := ValueTaken(s, n, p, dup); Shape(t) && OpenBooks(s) ==> OpenBooks(t)
  {
    hide Stepped, ContentOf, ToolsOf, WellFormed, BlockEvents, SetArg, Fragment, Unambiguous, HasDuplicate, Collect,
         ParamEvents, FragmentEvents, Shape, XmlWellFormed, XmlParamEvents, AtOpeningTag, CallSoFar, HasKey;
    if OpenBooks(s) {
      ParamRecorded(s, p, dup);
      ValueShown(s, p, dup, ValueTaken(s, n, p, dup));
    }
  }

  lemma ValueShown(s: Snap, p: Param, dup: bool, t: Snap)
    requires s.state == StInParameterValue && t.state == StInInvokeBody && !IsXml(s.d.dialect)
    requires t.d == s.d && t.read == s.read && t.name == s.name && t.ps == s.ps + [p]
    requires ParamEvents(s.d.json, |s.read|, t.ps) ==
             ParamEvents(s.d.json, |s.read|, s.ps) + FragmentEvents(s, p, dup)
    ensures s.pending == BlockEvents(s.d.json, false, s.read) + CallSoFar(s) ==>
              s.pending + FragmentEvents(s, p, dup) == BlockEvents(s.d.json, false, s.read) + CallSoFar(t)
  {
    hide BlockEvents, ParamEvents, FragmentEvents;
    assert CallSoFar(t) == CallSoFar(s) + FragmentEvents(s, p, dup);
  }

  lemma ParamRecorded(s: Snap, p: Param, dup: bool)
    requires s.args == Collect(s.d.json, s.ps, true) && s.dup == HasDuplicate(s.ps)
    requires dup == (s.dup || HasKey(s.args, p.key))
    ensures dup == HasDuplicate(s.ps + [p])
    ensures SetArg(s.args, p.key, Fragment(s.d.json, p, true)) == Collect(s.d.json, s.ps + [p], true)
    ensures ParamEvents(s.d.json, |s.read|, s.ps + [p]) ==
            ParamEvents(s.d.json, |s.read|, s.ps) + FragmentEvents(s, p, dup)
  {
    hide Stepped, SetArg, Fragment;
    CollectKeys(s.d.json, s.ps, true);
    DuplicateAppends(s.ps, p);
    assert (s.ps + [p])[..|s.ps|] == s.ps;
    assert HasKey(s.args, p.key) <==> WasRead(s.ps, p.key);
  }

  /** The collected arguments hold exactly the keys read. */
  lemma {:induction false} CollectKeys(json: Json, ps: seq<Param>, live: bool)
    ensures forall k :: WasRead(ps, k) <==> HasKey(Collect(json, ps, live), k)
    ensures Collect(json, ps, live) == [] <==> ps == []
  {
    hide Stepped, Fragment, SetArg;
    if ps != [] {
      var init, p := ps[..|ps| - 1], ps[|ps| - 1];
      CollectKeys(json, init, live);
      SetArgKeys(Collect(json, init, live), p.key, Fragment(json, p, live));
      forall k ensures WasRead(ps, k) <==> (k == p.key || WasRead(init, k)) {
        assert WasRead(init + [p], k) <==> (k == p.key || WasRead(init, k)) by {
          var ps := init + [p];
          assert ps[|init|] == p;
          assert forall i :: 0 <= i < |init| ==> init[i] == ps[i];
        }
        assert ps == init + [p];
      }
    }
  }

  predicate WasRead(ps: seq<Param>, k: string) {
    exists i :: 0 <= i < |ps| && ps[i].key == k
  }

  predicate HasKey(a: Args, k: string) {
    exists i :: 0 <= i < |a| && a[i].0 == k
  }

  lemma {:induction false} SetArgKeys(a: Args, key: string, value: string)
    ensures forall k :: HasKey(SetArg(a, key, value), k) <==> k == key || HasKey(a, k)
    ensures SetArg(a, key, value) != []
  {
    var r := SetArg(a, key, value);
    if a == [] {
      assert r[0].0 == key;
    } else if a[0].0 == key {
      assert r[0].0 == key;
      assert forall i :: 1 <= i < |a| ==> r[i] == a[i];
      forall k ensures HasKey(r, k) <==> k == key || HasKey(a, k) {
        if i :| 0 <= i < |a| && a[i].0 == k {
          assert r[i].0 == k;
        }
        if i :| 0 <= i < |r| && r[i].0 == k {
          assert a[i].0 == k;
        }
      }
    } else {
      SetArgKeys(a[1..], key, value);
      ConsKeys(a[0], a[1..]);
      ConsKeys(a[0], SetArg(a[1..], key, value));
      assert a == [a[0]] + a[1..];
    }
  }

  lemma ConsKeys(e: (string, string), a: Args)
    ensures forall k :: HasKey([e] + a, k) <==> k == e.0 || HasKey(a, k)
  {
    var b := [e] + a;
    forall k ensures HasKey(b, k) <==> k == e.0 || HasKey(a, k) {
      assert b[0] == e;
      if i :| 0 <= i < |a| && a[i].0 == k {
        assert b[i + 1].0 == k;
      }
      if i :| 0 < i < |b| && b[i].0 == k {
        assert a[i - 1].0 == k;
      }
    }
  }

  lemma DuplicateAppends(ps: seq<Param>, p: Param)
    ensures HasDuplicate(ps + [p]) <==> HasDuplicate(ps) || WasRead(ps, p.key)
  {
    var qs := ps + [p];
    assert forall i :: 0 <= i < |ps| ==> qs[i] == ps[i];
    if i, j :| 0 <= i < j < |ps| && ps[i].key == ps[j].key {
      assert qs[i].key == qs[j].key;
    }
    if i :| 0 <= i < |ps| && ps[i].key == p.key {
      assert qs[i].key == qs[|ps|].key;
    }
  }

  lemma ValueCutStep(s: Snap)
    requires Valid(s) && s.state == StInParameterValue && Index(s.buf, s.syntax.paramEnd) < 0 && s.final
    ensures Rejects(s, 0)
  {
    hide Stepped, Meaning, ScanBody, BlockEvents, ContentOf, ToolsOf, Faithful, WellFormed, XmlWellFormed, SkipSpace,
         Index, ScanBlock, GlmName;
    assert s.buf[0..] == s.buf && s.buf + "" == s.buf;
    assert ScanFrom(s.d, SpotOf(s), s.buf) == Bad(s.buf);
    BlockRaw(s, 0);
    assert Move(s, 0) == s;
  }

  // ----- skipping -----

  /** White space only: the decoder waits, or has read everything. */
  lemma SkippedDry(s: Snap, n: nat)
    requires n <= |s.buf| && n == |s.buf| && (s.final ==> Finished(Move(s, n)))
    requires s.state == StInToolCalls || s.state == StInInvokeBody || s.state == StCheckingToolBlockEnd
    requires (s.state == StInToolCalls ==> s.seenOp) && (Tracked(s) ==> Tracked(Move(s, n)))
    requires Valid(Move(s, n))
    ensures Stepped(s, Move(s, n), [])
  {
    hide Valid, Finished, WellFormed, XmlWellFormed, Tracked, Told, Waiting, HasStanza;
    DryWaits(Move(s, n));
    MoveTold(s, n);
    assert s.emitted + [] == s.emitted;
    assert n == 0 ==> Move(s, n) == s;
  }

  lemma DryWaits(s: Snap)
    requires s.buf == "" && (s.state == StInToolCalls ==> s.seenOp)
    requires s.state == StInToolCalls || s.state == StInInvokeBody || s.state == StCheckingToolBlockEnd
    ensures Waiting(s)
  {
    EosIsOpener();
  }

  lemma MoveTold(s: Snap, n: nat)
    requires s.state != StThinking
    ensures Told(s) ==> Told(Move(s, n))
  {
    hide Thinned, ReasoningOf, Index;
  }

  /** What the fields say inside a call. */
  lemma InBodyFacts(s: Snap)
    requires InCall(s.state) && IsBlockState(s.state)
    requires Valid(s)
    ensures |s.calls| == |s.read| + 1 && (s.args == [] <==> s.ps == [])
  {
    hide BlockEvents, ContentOf, ToolsOf, WellFormed, XmlWellFormed, ParamEvents, Collect, HasDuplicate, Faithful,
         ShownToBlock;
    CollectKeys(s.d.json, s.ps, true);
  }
}
