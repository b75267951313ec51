/** The incremental decoder (dsml/stream.go): a nineteen-state machine fed arbitrary chunks. */
module Stream {
  import opened Text
  import opened ToolText
  import opened Markup
  import opened Calls
  import opened Grammar
  import opened Phases
  import opened Transitions
  import opened Decode
  import opened Completion
  import opened Parser
  import opened DecoderState
  import opened DecoderSteps
  import opened BlockHandlers
  import opened EndHandlers
  import opened ThinkHandlers
  import opened XmlHandlers
  import opened CloseSteps
  import opened Completing

  /** The decoder's tool-block parsing state. */
  datatype ToolBlock = ToolBlock(
    syntax: Syntax, seenToolCallsOp: bool, implicitBlock: bool, rawBlockStart: nat, calls: seq<Pending>,
        pendingArgs: Args,
    paramName: string, paramIsString: bool, hasDupParam: bool, pendingEvents: seq<Event>, toolBlockClosed: bool)

  /** What the specification remembers besides: see DecoderState.Snap. */
  datatype Seen = Seen(emitted: seq<Event>, base: nat, marker: nat, read: seq<Call>, name: string, ps: seq<Param>,
                       outcome: Verdict)

  function Snapshot(d: Reader, thinking: bool, buf: string, full: string, state: State, final: bool, b: ToolBlock,
          scanFrom: nat, stanza: bool, g: Seen): Snap {
      Snap(d, thinking, buf, full, state, final, b.syntax, b.seenToolCallsOp, b.implicitBlock, b.rawBlockStart,
           b.calls, b.pendingArgs,
           b.paramName, b.paramIsString, b.hasDupParam, b.pendingEvents, b.toolBlockClosed, scanFrom, stanza,
           g.emitted, g.base, g.marker, g.read, g.name, g.ps, g.outcome)
  }

  class StreamDecoder {
    const reader: Reader
    const thinking: bool
    var buf: string
    var fullText: string
    var state: State
    var finalPass: bool

    var block: ToolBlock

    // the stanza scan inside open reasoning
    var thinkScanFrom: nat
    var thinkStanza: bool

    ghost var seen: Seen

    ghost function Now(): Snap
      reads this
    {
      Snapshot(reader, thinking, buf, fullText, state, finalPass, block, thinkScanFrom, thinkStanza, seen)
    }

    /** `NewStreamDecoderSyntax`. */
    constructor (dialect: Dialect, thinking: bool, json: Json, qwenLiteral: string -> bool)
      ensures reader == ReaderOf(dialect, json, qwenLiteral) && this.thinking == thinking
      ensures fullText == "" && !finalPass && seen.emitted == []
      ensures !Done() && !block.toolBlockClosed && !ToolStanzaInThinking()
      ensures Waiting(Now()) && Consistent(Now())
    {
      hide WellFormed, XmlWellFormed, Table, Consistent, Waiting, XmlForms;
      reader := ReaderOf(dialect, json, qwenLiteral);
      this.thinking := thinking;
      buf, fullText, finalPass := "", "", false;
      state := if thinking then StThinking else StContent;
      block := EmptyBlock();
      thinkScanFrom, thinkStanza := 0, false;
      seen := NothingSeen();
      new;
      Initial(reader, thinking);
    }

    // ----- the interface -----

    /** `Write`: any chunk, cut anywhere. Afterwards the decoder has gone as far as the text allows. It reports a closed
        block exactly when the text holds one that is over, the end of the sentence exactly when no continuation changes
        the verdict, and a tool stanza in reasoning exactly when the open reasoning holds one. */
    method Write(chunk: string) returns (events: seq<Event>)
      requires !finalPass && Consistent(Now())
      modifies this
      ensures fullText == old(fullText) + chunk && seen.emitted == old(seen.emitted) + events
      ensures Done() <==> Decided(reader, thinking, fullText)
      ensures !Done() ==> (block.toolBlockClosed <==> BlockOver(reader, thinking, fullText))
      ensures ToolStanzaInThinking() <==> StanzaOpen(reader, thinking, fullText)
      ensures !finalPass && Waiting(Now()) && Consistent(Now())
    {
      hide Valid, Waiting, Finished, HasStanza, WellFormed, XmlWellFormed, Told, Tracked, Decided, BlockOver, Index;
      FedStep(Now(), chunk);
      buf := buf + chunk;
      fullText := fullText + chunk;
      events := Process();
      DoneWhenDecided(Now());
      ReasoningWhenOpen(Now());
      if state != StDone {
        ClosedWhenOver(Now());
      }
    }

    /** `Close`: the events of the whole run show exactly the verdict on the whole text, their reasoning deltas spell
        the reasoning in front of the first `</think>`, and the message is the batch reader's. */
    method Close() returns (events: seq<Event>, message: Parsed)
      requires !finalPass && Consistent(Now())
      modifies this
      ensures fullText == old(fullText) && seen.emitted == old(seen.emitted) + events
      ensures Shows(reader, seen.emitted, DecideAll(reader, thinking, fullText))
      ensures Thinned(ReasoningPart(thinking, fullText), ReasoningOf(seen.emitted))
      ensures message == ParseCompletion(reader, fullText, thinking)
    {
      assert Now().d.table != [] by {
        hide Unambiguous, Books, Faithful, Tracked, Told;
      }
      hide Valid, WellFormed, XmlWellFormed, Shows, DecideAll, ParseCompletion, Told, Thinned, ReasoningPart,
           ReasoningOf, Tracked;
      events := Finish();
      message := ParseText(reader, fullText, thinking);
    }

    method Finish() returns (events: seq<Event>)
      requires !finalPass && Valid(Now())
      modifies this
      ensures fullText == old(fullText) && seen.emitted == old(seen.emitted) + events
      ensures Shows(reader, seen.emitted, DecideAll(reader, thinking, fullText))
      ensures old(Told(Now())) ==> Thinned(ReasoningPart(thinking, fullText), ReasoningOf(seen.emitted))
    {
      hide Valid, Finished, WellFormed, XmlWellFormed, Shows, DecideAll, Told, Thinned, ReasoningPart, ReasoningOf,
           NoReasoning;
      EndInput();
      events := Process();
      ghost var s := Now();
      if Told(s) {
        ToldAtEnd(s);
      }
      var rest := Flush();
      ReasoningStays(s.emitted, rest);
      events := events + rest;
      buf := "";
    }

    method EndInput()
      requires !finalPass && Valid(Now())
      modifies this
      ensures Now() == old(Now()).(final := true)
      ensures Valid(Now()) && (old(Told(Now())) ==> Told(Now()))
    {
      hide Valid, WellFormed, XmlWellFormed, Thinned, ReasoningPart, ReasoningOf, Index;
      ghost var s := Now();
      FinalStep(s);
      finalPass := true;
      assert Now() == s.(final := true);
    }

    /** `Done`. */
    predicate Done()
      reads this
    {
      state == StDone
    }

    /** `ToolStanzaInThinking`. */
    predicate ToolStanzaInThinking()
      reads this
    {
      state == StThinking && thinkStanza
    }

    /** What closing emits for the state the loop stopped in. */
    method Flush() returns (events: seq<Event>)
      requires finalPass && Finished(Now())
      requires Valid(Now())
      modifies this`seen
      ensures seen.emitted == old(seen.emitted) + events && NoReasoning(events)
      ensures Shows(reader, seen.emitted, DecideAll(reader, thinking, fullText))
    {
      hide Valid, Finished, WellFormed, XmlWellFormed, Shows, DecideAll;
      ghost var s := Now();
      if IsOpenState(state) {
        events := FlushOpen();
        return;
      }
      events := [];
      if state == StDone {
        DoneEnd(s);
      } else {
        FlatEnd(s);
        EmptyBuffer(s);
        events := if state == StThinking then ReasoningEvents(buf) else ContentEvents(buf);
      }
      assert s.emitted + [] == s.emitted;
    }

    method FlushOpen() returns (events: seq<Event>)
      requires finalPass && IsOpenState(state) && Finished(Now())
      requires Valid(Now())
      modifies this`seen
      ensures seen.emitted == old(seen.emitted) + events && NoReasoning(events)
      ensures Shows(reader, seen.emitted, DecideAll(reader, thinking, fullText))
    {
      hide Valid, Finished, WellFormed, XmlWellFormed, Shows, DecideAll, NoReasoning;
      ghost var s := Now();
      if state == StCheckingToolBlockEnd {
        EmptyBuffer(s);
        BlockEnd(s);
        events := block.pendingEvents;
        seen := seen.(emitted := seen.emitted + events);
      } else if state == StGlmAfterCall || state == StQwenAfterCall {
        BlankBuffer(s);
        AfterCallEnd(s);
        events := block.pendingEvents + ContentEvents(buf);
        NothingTold(s.pending, buf);
        assert Shown(s.(emitted := s.emitted + s.pending), s.buf) == s.emitted + events;
        seen := seen.(emitted := seen.emitted + events);
      } else {
        events := ReplayCutOff();
      }
    }

    /** An unterminated tool structure is replayed as content. */
    method ReplayCutOff() returns (events: seq<Event>)
      requires finalPass && IsOpenState(state) && state != StCheckingToolBlockEnd && !IsAfterCall(state) &&
               Finished(Now())
      requires Valid(Now())
      modifies this`seen
      ensures seen.emitted == old(seen.emitted) + events && NoReasoning(events)
      ensures Shows(reader, seen.emitted, DecideAll(reader, thinking, fullText))
    {
      hide Valid, Finished, WellFormed, XmlWellFormed, Shows, DecideAll;
      ghost var s := Now();
      CutOffEnd(s);
      events := ContentEvents(fullText[block.rawBlockStart..|fullText| - |buf|]) + ContentEvents(buf);
      assert Shown(RawOf(s), s.buf) == s.emitted + events;
      seen := seen.(emitted := seen.emitted + events);
    }

    /** `process`: handlers run until neither bytes nor state change. */
    method Process() returns (events: seq<Event>)
      requires Valid(Now())
      modifies this
      ensures SameInput(old(Now()), Now()) && seen.emitted == old(seen.emitted) + events
      ensures Quiet(Now()) && (state == StThinking ==> thinkStanza == HasStanza(reader, fullText))
      ensures Valid(Now()) && (old(Told(Now())) ==> Told(Now())) && (old(Tracked(Now())) ==> Tracked(Now()))
    {
      hide Valid, Quiet, HasStanza, Stepped, WellFormed, XmlWellFormed, Told, Tracked;
      events := [];
      ghost var s := Now();
      var waiting := false;
      while !waiting
        invariant SameInput(s, Now()) && seen.emitted == s.emitted + events
        invariant waiting ==> Quiet(Now()) && (state == StThinking ==> thinkStanza == HasStanza(reader, fullText))
        invariant Valid(Now()) && (Told(s) ==> Told(Now())) && (Tracked(s) ==> Tracked(Now()))
        decreases !waiting, |buf|, Rank(state)
      {
        ghost var m := Now();
        var before, stateBefore := |buf|, state;
        var more := Handle();
        SteppedFacts(m, Now(), more);
        events := events + more;
        waiting := |buf| == before && state == stateBefore;
      }
    }

    /** One turn of the loop. */
    method Handle() returns (events: seq<Event>)
      requires Valid(Now())
      modifies this
      ensures Stepped(old(Now()), Now(), events)
    {
      hide Valid, Stepped, WellFormed, XmlWellFormed;
      if state == StThinking {
        events := ProcessThinking();
      } else if state == StContent {
        if IsXml(reader.dialect) {
          events := ProcessXmlContent(if reader.dialect == Glm then StGlmName else StQwenFn);
        } else {
          events := ProcessContent();
        }
      } else if state == StRaw {
        events := ProcessRaw();
      } else if state == StDone {
        Drain();
        events := [];
      } else if IsBlockState(state) {
        events := HandleBlock();
      } else {
        events := HandleXml();
      }
    }

    /** Nothing after the end-of-sentence token is read. */
    method Drain()
      requires state == StDone
      requires Valid(Now())
      modifies this
      ensures Stepped(old(Now()), Now(), [])
    {
      hide Valid, Stepped, WellFormed, XmlWellFormed;
      ghost var s := Now();
      DoneDrains(s);
      buf := "";
      assert Now() == s.(buf := "");
    }

    method HandleBlock() returns (events: seq<Event>)
      requires IsBlockState(state)
      requires Valid(Now())
      modifies this
      ensures Stepped(old(Now()), Now(), events)
    {
      hide Valid, Stepped, WellFormed, XmlWellFormed;
      match state {
        case StInToolCalls => events := ProcessInToolCalls();
        case StInInvoke => events := ProcessInInvoke();
        case StInInvokeBody => events := ProcessInInvokeBody();
        case StInParameter => events := ProcessInParameter();
        case StInParameterValue => events := ProcessInParameterValue();
        case StCheckingToolBlockEnd => events := ProcessCheckingToolBlockEnd();
      }
    }

    method HandleXml() returns (events: seq<Event>)
      requires IsXmlState(state)
      requires Valid(Now())
      modifies this
      ensures Stepped(old(Now()), Now(), events)
    {
      hide Valid, Stepped, WellFormed, XmlWellFormed;
      match state {
        case StGlmName => events := ProcessGlmName();
        case StGlmArgKey => events := ProcessGlmArgKey();
        case StGlmArgValue => events := ProcessGlmArgValue();
        case StGlmAfterCall => events := ProcessAfterCall(StGlmName);
        case StQwenFn => events := ProcessQwenFn();
        case StQwenParam => events := ProcessQwenParam();
        case StQwenParamValue => events := ProcessQwenParamValue();
        case StQwenAfterFn => events := ProcessQwenAfterFn();
        case StQwenAfterCall => events := ProcessAfterCall(StQwenFn);
      }
    }

    // ----- helpers -----

    /** `enterRawMode`: pending tool events are dropped and the consumed text is replayed as content. */
    method EnterRawMode() returns (events: seq<Event>)
      requires |buf| <= |fullText| && block.rawBlockStart <= |fullText| - |buf|
      modifies this
      ensures Now() == RawOf(old(Now()))
      ensures events == ReplayEvents(old(Now()))
    {
      events := ContentEvents(fullText[block.rawBlockStart..|fullText| - |buf|]);
      state := StRaw;
      block := block.(pendingEvents := [], calls := [], pendingArgs := [], seenToolCallsOp := false,
                      implicitBlock := false, toolBlockClosed := false);
      seen := seen.(emitted := seen.emitted + events, read := []);
    }

    /** `safeContentLen`: nothing in front of the result can still become part of a marker. */
    method SafeContentLen() returns (n: nat)
      ensures n <= |buf|
      ensures finalPass ==> n == |buf|
      ensures !finalPass ==> forall j :: 0 <= j < n ==> Settled(buf, j)
      ensures !finalPass && n == 0 ==> |buf| <= SAFETY_MARGIN + 2
    {
      if finalPass {
        return |buf|;
      }
      if |buf| <= SAFETY_MARGIN {
        return 0;
      }
      var tailStart := |buf| - SAFETY_MARGIN;
      var i := |buf| - 1;
      while i >= tailStart
        invariant tailStart - 1 <= i < |buf|
      {
        if buf[i] == '<' {
          var pos := i;
          if i >= 2 && buf[i - 2] == '\n' && buf[i - 1] == '\n' {
            pos := i - 2;
          }
          return pos;
        }
        if buf[i] == '\n' {
          return i;
        }
        i := i - 1;
      }
      return tailStart;
    }

    // ----- the block grammar -----

    method ProcessInToolCalls() returns (events: seq<Event>)
      requires state == StInToolCalls
      requires Valid(Now())
      modifies this
      ensures Stepped(old(Now()), Now(), events)
    {
      hide Valid, WellFormed, XmlWellFormed, Stepped, SkipSpace;
      ghost var s := Now();
      events := [];
      if !block.seenToolCallsOp {
        OpenWrapper();
        return;
      }
      SkipInBlock(s);
      ghost var n := Spaces(buf);
      SpacesAre(buf);
      buf := SkipSpace(buf);
      assert Now() == Move(s, n);
      if |buf| == 0 {
        SkippedDry(s, n);
        return;
      }
      events := ReadBlockTag();
      AfterSkip(s, n, Now(), events);
    }

    /** The wrapper tag, which the content state left in the buffer. */
    method OpenWrapper()
      requires state == StInToolCalls && !block.seenToolCallsOp
      requires Valid(Now())
      modifies this
      ensures Stepped(old(Now()), Now(), [])
    {
      hide Valid, WellFormed, XmlWellFormed, Stepped;
      ghost var s := Now();
      var n := (if "\n\n" <= buf then 2 else 0) + |block.syntax.toolStart|;
      OpeningStep(s, n);
      buf := buf[n..];
      block := block.(seenToolCallsOp := true);
      assert Now() == Move(s, n).(seenOp := true);
    }

    method ReadBlockTag() returns (events: seq<Event>)
      requires state == StInToolCalls && block.seenToolCallsOp && buf != "" && !IsAsciiSpace(buf[0])
      requires Valid(Now())
      modifies this
      ensures Stepped(old(Now()), Now(), events)
    {
      hide Valid, WellFormed, XmlWellFormed, Stepped, IsAsciiSpace, Classify;
      ghost var s := Now();
      events := [];
      if !block.implicitBlock && block.syntax.toolEnd <= buf {
        BlockClosesStep(s, |block.syntax.toolEnd|);
        buf := buf[|block.syntax.toolEnd|..];
        block := block.(toolBlockClosed := true);
        state := StCheckingToolBlockEnd;
        return;
      }
      match Classify(buf, block.syntax.invokeStart) {
        case Yes =>
          InvokeOpensStep(s);
          state := StInInvoke;
          return;
        case PartialTag =>
          if !finalPass {
            WaitsInside(s);
            return;
          }
        case No =>
      }
      if !block.implicitBlock && !finalPass && Partial(buf, block.syntax.toolEnd) {
        WaitsInside(s);
        return;
      }
      if block.implicitBlock && |block.calls| > 0 {
        ImplicitClosesStep(s);
        block := block.(toolBlockClosed := true);
        state := StCheckingToolBlockEnd;
        return;
      }
      BlockRejectsStep(s);
      events := EnterRawMode();
    }

    method ProcessInInvoke() returns (events: seq<Event>)
      requires state == StInInvoke
      requires Valid(Now())
      modifies this
      ensures Stepped(old(Now()), Now(), events)
    {
      hide Valid, WellFormed, XmlWellFormed, Index, Attr, Stepped;
      ghost var s := Now();
      events := [];
      var idx := Index(buf, ">");
      if idx < 0 {
        if finalPass {
          InvokeCutStep(s);
          events := EnterRawMode();
        } else {
          WaitsInside(s);
        }
        return;
      }
      var attr := Attr(buf[..idx + 1], "name");
      InvokeHeaderStep(s);
      if attr == None || attr.value == "" {
        events := EnterRawMode();
        return;
      }
      EnterBody(idx + 1, attr.value);
    }

    /** An invoke header has been read. */
    method EnterBody(n: nat, callName: string)
      requires n <= |buf|
      modifies this
      ensures Now() == InvokeEntered(old(Now()), n, callName)
    {
      hide WellFormed, XmlWellFormed;
      buf := buf[n..];
      block := block.(pendingEvents := block.pendingEvents + [CallStart(|block.calls|, callName)],
                      calls := block.calls + [Pending(callName, "")], pendingArgs := [], hasDupParam := false);
      state := StInInvokeBody;
      seen := seen.(name := callName, ps := []);
    }

    method ProcessInInvokeBody() returns (events: seq<Event>)
      requires state == StInInvokeBody
      requires Valid(Now())
      modifies this
      ensures Stepped(old(Now()), Now(), events)
    {
      hide Valid, WellFormed, XmlWellFormed, Stepped, SkipSpace;
      ghost var s := Now();
      events := [];
      SkipInBody(s);
      ghost var n := Spaces(buf);
      SpacesAre(buf);
      buf := SkipSpace(buf);
      assert Now() == Move(s, n);
      if |buf| == 0 {
        SkippedDry(s, n);
        return;
      }
      events := ReadBodyTag();
      AfterSkip(s, n, Now(), events);
    }

    method ReadBodyTag() returns (events: seq<Event>)
      requires state == StInInvokeBody && buf != "" && !IsAsciiSpace(buf[0])
      requires Valid(Now())
      modifies this
      ensures Stepped(old(Now()), Now(), events)
    {
      hide Valid, WellFormed, XmlWellFormed, Stepped, IsAsciiSpace, Classify;
      ghost var s := Now();
      events := [];
      if block.syntax.invokeEnd <= buf {
        events := CompleteInvoke();
        return;
      }
      match Classify(buf, block.syntax.paramStart) {
        case Yes =>
          ParamOpensStep(s);
          state := StInParameter;
          return;
        case PartialTag =>
          if !finalPass {
            WaitsInside(s);
            return;
          }
        case No =>
      }
      if !finalPass && Partial(buf, block.syntax.invokeEnd) {
        WaitsInside(s);
        return;
      }
      BodyRejectsStep(s);
      events := EnterRawMode();
    }

    /** `completeInvoke`, past the close tag. */
    method CompleteInvoke() returns (events: seq<Event>)
      requires state == StInInvokeBody && block.syntax.invokeEnd <= buf
      requires Valid(Now())
      modifies this
      ensures Stepped(old(Now()), Now(), events)
    {
      hide Valid, WellFormed, XmlWellFormed, Stepped, BuildJson;
      ghost var s := Now();
      events := [];
      InBodyFacts(s);
      var n := |block.syntax.invokeEnd|;
      var arguments := BuildJson(reader.json, block.pendingArgs);
      InvokeClosesStep(s, n, arguments);
      if reader.json.valid(arguments) {
        RecordCall(n, arguments);
      } else {
        TagsNonEmpty(block.syntax);
        buf := buf[n..];
        assert Now() == Move(s, n);
        events := EnterRawMode();
      }
    }

    /** A call whose arguments are valid JSON. */
    method RecordCall(n: nat, arguments: string)
      requires n <= |buf| && |block.calls| == |seen.read| + 1 && (block.pendingArgs == [] <==> seen.ps == [])
      modifies this
      ensures Now() == InvokeLeft(old(Now()), n, arguments)
    {
      hide WellFormed, XmlWellFormed, ClosingEvents;
      var closing := EventsToClose(arguments);
      var last := |block.calls| - 1;
      buf := buf[n..];
      block := block.(calls := block.calls[..last] + [Pending(block.calls[last].name, arguments)], pendingArgs := [],
                      pendingEvents := block.pendingEvents + closing);
      state := StInToolCalls;
      seen := seen.(read := seen.read + [Call(seen.name, seen.ps)]);
    }

    /** The last fragment of a call's arguments, and its end. */
    method EventsToClose(arguments: string) returns (closing: seq<Event>)
      requires |block.calls| == |seen.read| + 1 && (block.pendingArgs == [] <==> seen.ps == [])
      ensures closing == ClosingEvents(Now(), arguments)
    {
      var last := |block.calls| - 1;
      var delta := if block.hasDupParam || block.pendingArgs == [] then arguments else "}";
      closing := [ArgumentsDelta(last, delta), CallEnd(last, arguments)];
    }

    method ProcessInParameter() returns (events: seq<Event>)
      requires state == StInParameter
      requires Valid(Now())
      modifies this
      ensures Stepped(old(Now()), Now(), events)
    {
      hide Valid, WellFormed, XmlWellFormed, Index, Attr, Stepped;
      ghost var s := Now();
      events := [];
      var idx := Index(buf, ">");
      if idx < 0 {
        if finalPass {
          ParamCutStep(s);
          events := EnterRawMode();
        } else {
          WaitsInside(s);
        }
        return;
      }
      var tag := buf[..idx + 1];
      var pName := Attr(tag, "name");
      if pName == None || pName.value == "" {
        ParamHeaderRejectsStep(s);
        events := EnterRawMode();
        return;
      }
      var isStringText := Attr(tag, "string");
      var isString := isStringText != Some("false");
      var h := Header(pName.value, isString, buf[idx + 1..]);
      ParamHeaderStep(s, idx + 1, h);
      EnterParameter(idx + 1, h);
    }

    /** A parameter header has been read. */
    method EnterParameter(n: nat, h: Header)
      requires n <= |buf|
      modifies this
      ensures Now() == ParamEntered(old(Now()), n, h)
    {
      hide WellFormed, XmlWellFormed;
      buf := buf[n..];
      block := block.(paramName := h.name, paramIsString := h.isString);
      state := StInParameterValue;
    }

    method ProcessInParameterValue() returns (events: seq<Event>)
      requires state == StInParameterValue
      requires Valid(Now())
      modifies this
      ensures Stepped(old(Now()), Now(), events)
    {
      hide Valid, WellFormed, XmlWellFormed, Index, Stepped, Unescape, HasKey;
      ghost var s := Now();
      events := [];
      var idx := Index(buf, block.syntax.paramEnd);
      if idx < 0 {
        if finalPass {
          ValueCutStep(s);
          events := EnterRawMode();
        } else {
          WaitsInside(s);
        }
        return;
      }
      InBodyFacts(s);
      ghost var p := BlockParam(block.syntax, block.paramName, buf[..idx], block.paramIsString);
      var dup := block.hasDupParam || HasKey(block.pendingArgs, block.paramName);
      ValueStep(s, idx + |block.syntax.paramEnd|, p, dup);
      RecordParameter(idx, dup, p);
    }

    /** The value of a parameter, which ends at `idx`, and its live fragment unless a key has repeated. */
    method RecordParameter(idx: nat, dup: bool, ghost p: Param)
      requires idx + |block.syntax.paramEnd| <= |buf| && |block.calls| == |seen.read| + 1
      requires p == BlockParam(block.syntax, block.paramName, buf[..idx], block.paramIsString)
      modifies this
      ensures Now() == ValueTaken(old(Now()), idx + |block.syntax.paramEnd|, p, dup)
    {
      hide WellFormed, XmlWellFormed, Unescape, FragmentEvents, Fragment, SetArg;
      var more, stored := ParameterTexts(buf[..idx], dup, p);
      StoreParameter(idx + |block.syntax.paramEnd|, dup, more, stored, p);
    }

    /** The live fragment and the stored value of a parameter whose body is `raw`. */
    method ParameterTexts(raw: string, dup: bool, ghost p: Param) returns (more: seq<Event>, stored: string)
      requires |block.calls| == |seen.read| + 1 &&
               p == BlockParam(block.syntax, block.paramName, raw, block.paramIsString)
      ensures more == FragmentEvents(Now(), p, dup) && stored == Fragment(reader.json, p, true)
    {
      hide WellFormed, XmlWellFormed, Unescape, SetArg;
      CloseTags(block.syntax);
      var decoded := UnescapeToolText(raw, block.syntax.paramEnd);
      var fragment := if block.paramIsString then reader.json.quote(decoded) else raw;
      stored := if block.paramIsString then reader.json.quote(decoded) else decoded;
      more := [];
      if !dup {
        var lead := if block.pendingArgs == [] then "{" else ", ";
        more := [ArgumentsDelta(|block.calls| - 1, lead + reader.json.quote(block.paramName) + ": " + fragment)];
      }
    }

    method StoreParameter(n: nat, dup: bool, more: seq<Event>, stored: string, ghost p: Param)
      requires n <= |buf| && p.key == block.paramName
      requires more == FragmentEvents(Now(), p, dup) && stored == Fragment(reader.json, p, true)
      modifies this
      ensures Now() == ValueTaken(old(Now()), n, p, dup)
    {
      hide WellFormed, XmlWellFormed, SetArg, FragmentEvents, Fragment;
      buf := buf[n..];
      block := block.(hasDupParam := dup, pendingEvents := block.pendingEvents + more,
                      pendingArgs := SetArg(block.pendingArgs, block.paramName, stored));
      state := StInInvokeBody;
      seen := seen.(ps := seen.ps + [p]);
    }

    method ProcessCheckingToolBlockEnd() returns (events: seq<Event>)
      requires state == StCheckingToolBlockEnd
      requires Valid(Now())
      modifies this
      ensures Stepped(old(Now()), Now(), events)
    {
      hide Valid, WellFormed, XmlWellFormed, Stepped, SkipSpace;
      ghost var s := Now();
      events := [];
      SkipAfterBlock(s);
      ghost var n := Spaces(buf);
      SpacesAre(buf);
      buf := SkipSpace(buf);
      assert Now() == Move(s, n);
      if |buf| == 0 {
        SkippedDry(s, n);
        return;
      }
      events := ReadBlockEnd();
      AfterSkip(s, n, Now(), events);
    }

    method ReadBlockEnd() returns (events: seq<Event>)
      requires state == StCheckingToolBlockEnd && buf != "" && !IsAsciiSpace(buf[0])
      requires Valid(Now())
      modifies this
      ensures Stepped(old(Now()), Now(), events)
    {
      hide Valid, WellFormed, XmlWellFormed, Stepped, IsAsciiSpace, Partial;
      ghost var s := Now();
      events := [];
      if EOS <= buf {
        MarkerInText(s);
        AfterBlockStopsStep(s, fullText[seen.base..seen.marker]);
        events := CompleteToolBlock(|EOS|);
        return;
      }
      if !finalPass && Partial(buf, EOS) {
        WaitsInside(s);
        return;
      }
      AfterBlockRejectsStep(s);
      events := EnterRawMode();
    }

    /** `completeToolBlock` at an end-of-sentence token that ends `n` bytes on. */
    method CompleteToolBlock(n: nat) returns (events: seq<Event>)
      requires n <= |buf| && seen.base <= seen.marker <= |fullText|
      modifies this
      ensures Now() == Accepted(old(Now()), n, old(fullText[seen.base..seen.marker]))
      ensures events == old(block.pendingEvents)
    {
      buf := buf[n..];
      events := block.pendingEvents;
      block := block.(pendingEvents := [], seenToolCallsOp := false, implicitBlock := false, calls := []);
      state := StDone;
      seen := seen.(emitted := seen.emitted + events, outcome := Verdict(fullText[seen.base..seen.marker],
              Some(seen.read)), read := []);
    }

    // ----- plain content and raw text -----

    method ProcessContent() returns (events: seq<Event>)
      requires state == StContent && !IsXml(reader.dialect)
      requires Valid(Now())
      modifies this
      ensures Stepped(old(Now()), Now(), events)
    {
      hide Valid, WellFormed, XmlWellFormed, Stepped, Index, FirstMarker, OpenAt, NoOpener;
      ghost var s := Now();
      ContentFacts(s);
      var eosIdx := Index(buf, EOS);
      var found := FindToolBlockStart(reader.table, buf, 0);
      if found.Some? && (eosIdx < 0 || found.value.rawStart < eosIdx) {
        var f := found.value;
        OpenerIsFirst(reader, buf, f);
        ContentOpensStep(s, f.start, f.syn, f.implicit);
        events := OpenBlock(f);
        return;
      }
      if eosIdx >= 0 {
        RawStartBefore(reader.table, buf, found, eosIdx);
        EosIsFirst(reader, buf, eosIdx);
        ContentStopsStep(s, eosIdx, Consumed(s) + buf[..eosIdx]);
        events := StopAt(eosIdx, Consumed(s) + buf[..eosIdx]);
        return;
      }
      NothingFirst(reader, buf);
      events := EmitSafe();
    }

    method OpenBlock(f: Found) returns (events: seq<Event>)
      requires f.rawStart <= f.start <= |buf| <= |fullText|
      modifies this
      ensures Now() == BlockOpened(old(Now()), f.start, f.rawStart, f.syn, f.implicit)
      ensures events == ContentEvents(Until(old(buf), f.rawStart))
    {
      hide WellFormed, XmlWellFormed, ContentEvents;
      ghost var marker := |fullText| - |buf| + f.start;
      events := ContentEvents(buf[..f.rawStart]);
      buf := buf[f.rawStart..];
      block := block.(syntax := f.syn, implicitBlock := f.implicit, seenToolCallsOp := f.implicit,
                      rawBlockStart := |fullText| - |buf|);
      state := StInToolCalls;
      seen := seen.(emitted := seen.emitted + events, marker := marker);
    }

    /** The end-of-sentence token at `idx` in plain content or raw text. */
    method StopAt(idx: nat, ghost text: string) returns (events: seq<Event>)
      requires idx + |EOS| <= |buf|
      modifies this
      ensures Now() == Stopped(old(Now()), idx, text)
      ensures events == ContentEvents(Until(old(buf), idx))
    {
      hide WellFormed, XmlWellFormed, ContentEvents;
      events := ContentEvents(buf[..idx]);
      buf := buf[idx + |EOS|..];
      state := StDone;
      seen := seen.(emitted := seen.emitted + events, outcome := Verdict(text, None));
    }

    method ShowPrefix(n: nat) returns (events: seq<Event>)
      requires n <= |buf|
      modifies this
      ensures Now() == Emitted(old(Now()), n)
      ensures events == ContentEvents(Until(old(buf), n))
    {
      hide WellFormed, XmlWellFormed, ContentEvents;
      events := ContentEvents(buf[..n]);
      buf := buf[n..];
      seen := seen.(emitted := seen.emitted + events);
    }

    /** No marker in sight: a safe prefix is shown. */
    method EmitSafe() returns (events: seq<Event>)
      requires state == StContent && forall j :: 0 <= j < |buf| ==> MarkerAt(reader, buf[j..]) == NoMarker
      requires Valid(Now())
      modifies this
      ensures Stepped(old(Now()), Now(), events)
    {
      hide Valid, WellFormed, XmlWellFormed, Stepped, MarkerAt, Settled, MarkerFree;
      ghost var s := Now();
      events := [];
      var safe := SafeContentLen();
      if safe > 0 {
        SettledIsMarkerFree(reader, buf, safe, finalPass);
        ContentEmitsStep(s, safe);
        events := ShowPrefix(safe);
      } else {
        Waits(s);
      }
    }

    method ProcessXmlContent(next: State) returns (events: seq<Event>)
      requires state == StContent && IsXml(reader.dialect) && next == if reader.dialect == Glm then StGlmName
               else StQwenFn
      requires Valid(Now())
      modifies this
      ensures Stepped(old(Now()), Now(), events)
    {
      hide Valid, WellFormed, XmlWellFormed, Stepped, Index, FirstMarker;
      ghost var s := Now();
      ContentFacts(s);
      var eosIdx := Index(buf, EOS);
      var callIdx := Index(buf, reader.xml.callStart);
      if callIdx >= 0 && (eosIdx < 0 || callIdx < eosIdx) {
        XmlTagsNonEmpty(reader.xml);
        CallIsFirst(reader, buf, callIdx);
        ContentOpensXmlStep(s, callIdx, callIdx + |reader.xml.callStart|);
        events := OpenCall(callIdx, next);
        return;
      }
      if eosIdx >= 0 {
        EosIsFirst(reader, buf, eosIdx);
        ContentStopsStep(s, eosIdx, Consumed(s) + buf[..eosIdx]);
        events := StopAt(eosIdx, Consumed(s) + buf[..eosIdx]);
        return;
      }
      NothingFirst(reader, buf);
      events := EmitSafe();
    }

    method OpenCall(callIdx: nat, next: State) returns (events: seq<Event>)
      requires callIdx + |reader.xml.callStart| <= |buf| <= |fullText| &&
               next == if reader.dialect == Glm then StGlmName else StQwenFn
      modifies this
      ensures Now() == CallOpened(old(Now()), callIdx)
      ensures events == ContentEvents(Until(old(buf), callIdx))
    {
      hide WellFormed, XmlWellFormed, ContentEvents;
      events := ContentEvents(buf[..callIdx]);
      buf := buf[callIdx..];
      block := block.(rawBlockStart := |fullText| - |buf|);
      seen := seen.(emitted := seen.emitted + events, marker := |fullText| - |buf|);
      buf := buf[|reader.xml.callStart|..];
      state := next;
    }

    method ProcessRaw() returns (events: seq<Event>)
      requires state == StRaw
      requires Valid(Now())
      modifies this
      ensures Stepped(old(Now()), Now(), events)
    {
      hide Valid, WellFormed, XmlWellFormed, Stepped, Index, Settled, EosFree;
      ghost var s := Now();
      events := [];
      var idx := Index(buf, EOS);
      if idx >= 0 {
        RawFacts(s);
        RawStopsStep(s, idx, Consumed(s) + buf[..idx]);
        events := StopAt(idx, Consumed(s) + buf[..idx]);
        return;
      }
      var safe := SafeContentLen();
      if safe > 0 {
        SettledIsEosFree(buf, safe, finalPass);
        RawEmitsStep(s, safe);
        events := ShowPrefix(safe);
      } else {
        Waits(s);
      }
    }

    // ----- reasoning -----

    /** `scanThinkingForToolStanza`: remembers whether a complete stanza opening has appeared. The offset
        already scanned never passes the text, so the code's clamp has no case here. */
    method ScanThinkingForToolStanza()
      requires state == StThinking
      requires Valid(Now())
      modifies this
      ensures Scanned(old(Now()), Now())
    {
      hide Valid, WellFormed, XmlWellFormed, HasStanza, StanzaAt, Scanned;
      ghost var s := Now();
      ScanFacts(s);
      if thinkStanza {
        AlreadyScanned(s);
        return;
      }
      var hit := RegionHasStanza();
      StanzaScanned(reader, fullText, thinkScanFrom, hit);
      var hold := |fullText| - STANZA_HOLDBACK;
      var next := if !hit && hold > thinkScanFrom then hold else thinkScanFrom;
      ScanMoves(s, next, hit);
      RecordScan(next, hit);
    }

    method RecordScan(scanFrom: nat, hit: bool)
      modifies this
      ensures Now() == old(Now()).(scanFrom := scanFrom, stanza := hit)
    {
      thinkStanza := hit;
      thinkScanFrom := scanFrom;
    }

    method RegionHasStanza() returns (hit: bool)
      requires thinkScanFrom <= |fullText|
      ensures hit <==> HasStanza(reader, fullText[thinkScanFrom..])
    {
      hide WellFormed, XmlWellFormed, Index;
      var region := fullText[thinkScanFrom..];
      if IsXml(reader.dialect) {
        IndexIsFirst(region, reader.xml.callStart);
        return Contains(region, reader.xml.callStart);
      }
      var i := 0;
      while i < |reader.table|
        invariant 0 <= i <= |reader.table|
        invariant forall k, j :: 0 <= k < i && 0 <= j <= |region| ==> !(reader.table[k].toolStart <= region[j..])
      {
        IndexIsFirst(region, reader.table[i].toolStart);
        if Contains(region, reader.table[i].toolStart) {
          assert StanzaAt(reader, region[Index(region, reader.table[i].toolStart)..]);
          return true;
        }
        i := i + 1;
      }
      return false;
    }

    method ProcessThinking() returns (events: seq<Event>)
      requires state == StThinking
      requires Valid(Now())
      modifies this
      ensures Stepped(old(Now()), Now(), events)
    {
      hide Valid, WellFormed, XmlWellFormed, Stepped, HasStanza, Prepared, Told;
      ghost var s := Now();
      ThinkFacts(s);
      ScanThinkingForToolStanza();
      ghost var scanned := Now();
      assert Scanned(s, scanned);
      StripThinkStart();
      ghost var m := Now();
      PreparedBy(s, scanned, m);
      events := ReadThoughts();
      ThinkSteps(s, m, Now(), events);
    }

    /** A `<think>` at the front of the buffer is dropped. */
    method StripThinkStart()
      requires state == StThinking
      requires Valid(Now())
      modifies this
      ensures Now() == old(Now()) || (old(THINK_START <= buf) && Now() == Thought(old(Now()), |THINK_START|, ""))
      ensures Valid(Now())
    {
      hide Valid, WellFormed, XmlWellFormed;
      if THINK_START <= buf {
        StartIsEndFree(buf, finalPass);
        ThoughtStep(Now(), |THINK_START|, "");
        DropThoughts(|THINK_START|);
      }
    }

    /** `n` bytes of reasoning that are not shown. */
    method DropThoughts(n: nat)
      requires n <= |buf|
      modifies this
      ensures Now() == Thought(old(Now()), n, "")
    {
      buf := buf[n..];
      assert seen.emitted + [] == seen.emitted;
    }

    method ShowThoughts(n: nat) returns (events: seq<Event>)
      requires n <= |buf|
      modifies this
      ensures Now() == Thought(old(Now()), n, old(buf[..n]))
      ensures events == ReasoningEvents(old(buf[..n]))
    {
      events := ReasoningEvents(buf[..n]);
      buf := buf[n..];
      seen := seen.(emitted := seen.emitted + events);
    }

    method LeaveThinking(idx: nat) returns (events: seq<Event>)
      requires idx + |THINK_END| <= |buf| <= |fullText|
      modifies this
      ensures Now() == ThinkingLeft(old(Now()), idx)
      ensures events == ReasoningEvents(Until(old(buf), idx))
    {
      events := ReasoningEvents(buf[..idx]);
      buf := buf[idx + |THINK_END|..];
      state := StContent;
      seen := seen.(emitted := seen.emitted + events, base := |fullText| - |buf|, marker := |fullText| - |buf|);
    }

    method ReadThoughts() returns (events: seq<Event>)
      requires state == StThinking && thinkStanza == HasStanza(reader, fullText)
      requires Valid(Now())
      modifies this
      ensures Stepped(old(Now()), Now(), events)
    {
      hide Valid, WellFormed, XmlWellFormed, Stepped, Index, HasStanza, EndFree;
      ghost var s := Now();
      ThinkFacts(s);
      events := [];
      var idx := Index(buf, THINK_END);
      if idx >= 0 {
        ThinkingLeftMoves(s, idx);
        events := LeaveThinking(idx);
        return;
      }
      var n := if finalPass then |buf| else if |buf| > |THINK_END| then |buf| - |THINK_END| else 0;
      HeldBackIsEndFree(buf, n, finalPass);
      if n == 0 {
        assert Stepped(s, s, []) by {
          assert s.emitted + [] == s.emitted;
          ThinkMoves(s, s, []);
        }
        return;
      }
      ThoughtMoves(s, n);
      events := ShowThoughts(n);
    }

    // ----- GLM -----

    method ProcessGlmName() returns (events: seq<Event>)
      requires state == StGlmName
      requires Valid(Now())
      modifies this
      ensures Stepped(old(Now()), Now(), events)
    {
      hide Valid, WellFormed, XmlWellFormed, Stepped, Index, TrimSpace, Partial;
      ghost var s := Now();
      events := [];
      var lt := Index(buf, "<");
      if lt < 0 {
        GlmWaits(s);
        return;
      }
      var rest := buf[lt..];
      if !(reader.xml.keyStart <= rest) && !(reader.xml.callEnd <= rest) {
        if Partial(rest, reader.xml.keyStart) || Partial(rest, reader.xml.callEnd) {
          GlmWaits(s);
          return;
        }
        GlmNameRejectsStep(s, lt);
        events := EnterRawMode();
        return;
      }
      var callName := TrimSpace(buf[..lt]);
      if callName == "" {
        GlmNameRejectsStep(s, lt);
        events := EnterRawMode();
        return;
      }
      GlmNameStep(s, lt, callName);
      EnterCall(lt, callName, StGlmArgKey);
    }

    /** A call's name has been read. */
    method EnterCall(n: nat, callName: string, to: State)
      requires n <= |buf|
      modifies this
      ensures Now() == CallEntered(old(Now()), n, callName, to)
    {
      hide WellFormed, XmlWellFormed;
      block := block.(pendingEvents := block.pendingEvents + [CallStart(|block.calls|, callName)],
                      calls := block.calls + [Pending(callName, "")], pendingArgs := []);
      buf := buf[n..];
      state := to;
      seen := seen.(name := callName, ps := []);
    }

    method ProcessGlmArgKey() returns (events: seq<Event>)
      requires state == StGlmArgKey
      requires Valid(Now())
      modifies this
      ensures Stepped(old(Now()), Now(), events)
    {
      hide Valid, WellFormed, XmlWellFormed, Stepped, Index, Partial, BuildJson;
      ghost var s := Now();
      events := [];
      if reader.xml.callEnd <= buf {
        CallFacts(s);
        GlmCallClosesStep(s, |reader.xml.callEnd|);
        FinishCall(|reader.xml.callEnd|, StGlmAfterCall);
        return;
      }
      if !(reader.xml.keyStart <= buf) {
        if Partial(buf, reader.xml.keyStart) || Partial(buf, reader.xml.callEnd) {
          GlmWaits(s);
          return;
        }
        GlmKeyRejectsStep(s);
        events := EnterRawMode();
        return;
      }
      events := ReadGlmKey();
    }

    /** One `<arg_key>` element and the `<arg_value>` tag after it. */
    method ReadGlmKey() returns (events: seq<Event>)
      requires state == StGlmArgKey && reader.xml.keyStart <= buf && !(reader.xml.callEnd <= buf)
      requires Valid(Now())
      modifies this
      ensures Stepped(old(Now()), Now(), events)
    {
      hide Valid, WellFormed, XmlWellFormed, Stepped, Index, Partial, SkipSpace, TrimSpace, Unescape;
      ghost var s := Now();
      events := [];
      if Index(buf[|reader.xml.keyStart|..], reader.xml.keyEnd) < 0 {
        GlmWaits(s);
        return;
      }
      assert KeyComplete(reader.xml, buf);
      hide KeyComplete, KeyText, AfterKey;
      var key, trimmed := SplitGlmKey();
      if key == "" {
        GlmKeyRejectsStep(s);
        events := EnterRawMode();
        return;
      }
      if !(reader.xml.valueStart <= trimmed) {
        if Partial(trimmed, reader.xml.valueStart) {
          GlmWaits(s);
          return;
        }
        GlmKeyRejectsStep(s);
        events := EnterRawMode();
        return;
      }
      var n := |buf| - |trimmed| + |reader.xml.valueStart|;
      GlmKeyStep(s, n, key);
      EnterValue(n, key, StGlmArgValue);
    }

    /** The unescaped key, and what follows its element. */
    method SplitGlmKey() returns (key: string, trimmed: string)
      requires KeyComplete(reader.xml, buf)
      ensures key == KeyText(reader.xml, buf) && trimmed == AfterKey(reader.xml, buf)
    {
      hide WellFormed, XmlWellFormed, Index, SkipSpace, TrimSpace, Unescape;
      XmlCloseTags(reader.xml);
      var body := buf[|reader.xml.keyStart|..];
      var end := Index(body, reader.xml.keyEnd);
      key := UnescapeToolText(TrimSpace(body[..end]), reader.xml.keyEnd);
      trimmed := SkipSpace(body[end + |reader.xml.keyEnd|..]);
    }

    /** An argument's key has been read. */
    method EnterValue(n: nat, key: string, to: State)
      requires n <= |buf|
      modifies this
      ensures Now() == Keyed(old(Now()), n, key, to)
    {
      hide WellFormed, XmlWellFormed;
      block := block.(paramName := key);
      buf := buf[n..];
      state := to;
    }

    method ProcessGlmArgValue() returns (events: seq<Event>)
      requires state == StGlmArgValue
      requires Valid(Now())
      modifies this
      ensures Stepped(old(Now()), Now(), events)
    {
      hide Valid, WellFormed, XmlWellFormed, Stepped, Index, Unescape;
      ghost var s := Now();
      events := [];
      var end := Index(buf, reader.xml.valueEnd);
      if end < 0 {
        GlmWaits(s);
        return;
      }
      XmlCloseTags(reader.xml);
      var value := UnescapeToolText(buf[..end], reader.xml.valueEnd);
      var p := Param(block.paramName, value, value, true);
      GlmValueStep(s, end, end + |reader.xml.valueEnd|, p);
      CallFacts(s);
      TakeArgument(end + |reader.xml.valueEnd|, p, StGlmArgKey);
    }

    /** An argument's value has been read. */
    method TakeArgument(n: nat, p: Param, to: State)
      requires n <= |buf| && |block.calls| == |seen.read| + 1
      modifies this
      ensures Now() == ArgumentTaken(old(Now()), n, p, to)
    {
      hide WellFormed, XmlWellFormed, SetArg, Fragment;
      block := block.(pendingArgs := SetArg(block.pendingArgs, p.key, Fragment(reader.json, p, true)),
                      pendingEvents := block.pendingEvents + [ArgumentsDelta(|block.calls| - 1, p.live)],
                          paramName := "");
      buf := buf[n..];
      state := to;
      seen := seen.(ps := seen.ps + [p]);
    }

    /** `finishGLMCall`, past the close tag. */
    method FinishCall(n: nat, to: State)
      requires n <= |buf| && |block.calls| == |seen.read| + 1
      modifies this
      ensures Now() == CallLeft(old(Now()), n, BuildJson(reader.json, old(block.pendingArgs)), to)
    {
      hide WellFormed, XmlWellFormed, BuildJson;
      var last := |block.calls| - 1;
      var arguments := BuildJson(reader.json, block.pendingArgs);
      buf := buf[n..];
      block := block.(calls := block.calls[..last] + [Pending(block.calls[last].name, arguments)],
                      pendingEvents := block.pendingEvents + [CallEnd(last, arguments)], pendingArgs := []);
      state := to;
      seen := seen.(read := seen.read + [Call(seen.name, seen.ps)]);
    }

    /** After `</tool_call>`, in either dialect. */
    method ProcessAfterCall(next: State) returns (events: seq<Event>)
      requires (state == StGlmAfterCall && next == StGlmName) || (state == StQwenAfterCall && next == StQwenFn)
      requires Valid(Now())
      modifies this
      ensures Stepped(old(Now()), Now(), events)
    {
      hide Valid, WellFormed, XmlWellFormed, Stepped, SkipSpace, Partial;
      ghost var s := Now();
      events := [];
      var trimmed := SkipSpace(buf);
      if reader.xml.callStart <= trimmed {
        var n := |buf| - |trimmed| + |reader.xml.callStart|;
        if state == StGlmAfterCall {
          GlmNextCallStep(s, n);
        } else {
          QwenNextCallStep(s, n);
        }
        Advance(n, next);
        return;
      }
      if EOS <= trimmed {
        MarkerInText(s);
        var n := |buf| - |trimmed| + |EOS|;
        AfterCallStopsStep(s, n, fullText[seen.base..seen.marker]);
        events := CompleteToolBlock(n);
        return;
      }
      if |trimmed| == 0 || (!finalPass && (Partial(trimmed, reader.xml.callStart) || Partial(trimmed, EOS))) {
        AfterCallWaits(s);
        return;
      }
      AfterCallRejectsStep(s);
      events := EnterRawMode();
    }

    method Advance(n: nat, to: State)
      requires n <= |buf|
      modifies this
      ensures Now() == Advanced(old(Now()), n, to)
    {
      buf := buf[n..];
      state := to;
    }

    // ----- Qwen -----

    method ProcessQwenFn() returns (events: seq<Event>)
      requires state == StQwenFn
      requires Valid(Now())
      modifies this
      ensures Stepped(old(Now()), Now(), events)
    {
      hide Valid, WellFormed, XmlWellFormed, Stepped, SkipSpace, TrimSpace, Partial, IndexAngle;
      ghost var s := Now();
      events := [];
      var trimmed := SkipSpace(buf);
      if !(reader.xml.fnStart <= trimmed) {
        if Partial(trimmed, reader.xml.fnStart) {
          QwenWaits(s);
          return;
        }
        QwenFnRejectsStep(s);
        events := EnterRawMode();
        return;
      }
      var body := trimmed[|reader.xml.fnStart|..];
      var gt := IndexAngle(body);
      if gt < 0 {
        QwenWaits(s);
        return;
      }
      if body[gt] != '>' || TrimSpace(body[..gt]) == "" {
        QwenFnRejectsStep(s);
        events := EnterRawMode();
        return;
      }
      var n := |buf| - |body| + gt + 1;
      QwenFnStep(s, gt, n, TrimSpace(body[..gt]));
      EnterCall(n, TrimSpace(body[..gt]), StQwenParam);
    }

    method ProcessQwenParam() returns (events: seq<Event>)
      requires state == StQwenParam
      requires Valid(Now())
      modifies this
      ensures Stepped(old(Now()), Now(), events)
    {
      hide Valid, WellFormed, XmlWellFormed, Stepped, SkipSpace, Partial;
      ghost var s := Now();
      events := [];
      var trimmed := SkipSpace(buf);
      if reader.xml.fnEnd <= trimmed {
        var n := |buf| - |trimmed| + |reader.xml.fnEnd|;
        QwenFnClosesStep(s, n);
        Advance(n, StQwenAfterFn);
        return;
      }
      if !(reader.xml.paramStart <= trimmed) {
        if Partial(trimmed, reader.xml.paramStart) || Partial(trimmed, reader.xml.fnEnd) {
          QwenWaits(s);
          return;
        }
        QwenParamsRejectStep(s);
        events := EnterRawMode();
        return;
      }
      events := ReadQwenParam();
    }

    /** The `<parameter=KEY>` tag. */
    method ReadQwenParam() returns (events: seq<Event>)
      requires state == StQwenParam && reader.xml.paramStart <= SkipSpace(buf) && !(reader.xml.fnEnd <= SkipSpace(buf))
      requires Valid(Now())
      modifies this
      ensures Stepped(old(Now()), Now(), events)
    {
      hide Valid, WellFormed, XmlWellFormed, Stepped, SkipSpace, TrimSpace, Partial, IndexAngle;
      ghost var s := Now();
      events := [];
      var body := AfterTag(buf, reader.xml.paramStart);
      var gt := IndexAngle(body);
      if gt < 0 {
        QwenWaits(s);
        return;
      }
      if body[gt] != '>' || TrimSpace(body[..gt]) == "" {
        QwenParamsRejectStep(s);
        events := EnterRawMode();
        return;
      }
      var n := |buf| - |body| + gt + 1;
      QwenParamStep(s, gt, n, TrimSpace(body[..gt]));
      EnterValue(n, TrimSpace(body[..gt]), StQwenParamValue);
    }

    method ProcessQwenParamValue() returns (events: seq<Event>)
      requires state == StQwenParamValue
      requires Valid(Now())
      modifies this
      ensures Stepped(old(Now()), Now(), events)
    {
      hide Valid, WellFormed, XmlWellFormed, Stepped, Index, Unescape;
      ghost var s := Now();
      events := [];
      var end := Index(buf, reader.xml.paramEnd);
      if end < 0 {
        QwenWaits(s);
        return;
      }
      var p := ReadQwenValue(end);
      QwenValueStep(s, end, end + |reader.xml.paramEnd|, p);
      CallFacts(s);
      TakeArgument(end + |reader.xml.paramEnd|, p, StQwenParam);
    }

    method ReadQwenValue(end: nat) returns (p: Param)
      requires end <= |buf|
      ensures p == QwenParam(reader.xml, reader.qwenLiteral, block.paramName, buf[..end])
    {
      XmlCloseTags(reader.xml);
      var value := StripNewlines(buf[..end]);
      if reader.qwenLiteral(value) {
        value := TrimValue(value);
        return Param(block.paramName, value, value, false);
      }
      value := UnescapeToolText(value, reader.xml.paramEnd);
      return Param(block.paramName, value, value, true);
    }

    method ProcessQwenAfterFn() returns (events: seq<Event>)
      requires state == StQwenAfterFn
      requires Valid(Now())
      modifies this
      ensures Stepped(old(Now()), Now(), events)
    {
      hide Valid, WellFormed, XmlWellFormed, Stepped, SkipSpace, Partial, BuildJson;
      ghost var s := Now();
      events := [];
      var trimmed := SkipSpace(buf);
      if reader.xml.callEnd <= trimmed {
        var n := |buf| - |trimmed| + |reader.xml.callEnd|;
        CallFacts(s);
        QwenCallClosesStep(s, n);
        FinishCall(n, StQwenAfterCall);
        return;
      }
      if Partial(trimmed, reader.xml.callEnd) {
        QwenWaits(s);
        return;
      }
      QwenFnEndRejectsStep(s);
      events := EnterRawMode();
    }
  }

  predicate SameInput(s: Snap, t: Snap) {
    t.full == s.full && t.final == s.final
  }

  function EmptyBlock(): ToolBlock {
    ToolBlock(PlainTags(), false, false, 0, [], [], "", false, false, [], false)
  }

  function NothingSeen(): (g: Seen)
    ensures g.emitted == []
  {
    Seen([], 0, 0, [], "", [], Verdict("", None))
  }

  lemma Initial(d: Reader, thinking: bool)
    requires d.table == Table(d.dialect)
    ensures var s := Snapshot(d, thinking, "", "", if thinking then StThinking else StContent, false, EmptyBlock(), 0,
                              false, NothingSeen());
            Waiting(s) && Consistent(s)
  {
    hide Meaning, WellFormed, XmlWellFormed, Table, MarkerAt;
    var s := Snapshot(d, thinking, "", "", if thinking then StThinking else StContent, false, EmptyBlock(), 0, false,
                      NothingSeen());
    TablesAreUnambiguous(d.dialect);
    forall ext: string ensures DecideAll(d, thinking, "" + ext) == Meaning(d, PhaseOf(s), "" + ext) {
      InitialMeans(d, ext);
      assert "" + ext == ext;
    }
  }

  lemma InitialMeans(d: Reader, ext: string)
    ensures Meaning(d, Content(""), ext) == Decide(d, ext) && Meaning(d, Thinking, ext) == DecideThinking(d, ext)
  {
    hide Decide;
    assert "" + Decide(d, ext).content == Decide(d, ext).content;
  }

  lemma SteppedFacts(s: Snap, t: Snap, events: seq<Event>)
    requires Stepped(s, t, events)
    ensures SameInput(s, t) && t.emitted == s.emitted + events && Valid(t) && (Told(s) ==> Told(t))
    ensures Tracked(s) ==> Tracked(t)
    ensures t.state == StThinking ==> t.stanza == HasStanza(t.d, t.full)
    ensures |t.buf| < |s.buf| ||
            (|t.buf| == |s.buf| && (Rank(t.state) < Rank(s.state) || (t.state == s.state && Quiet(t))))
  {
    hide Valid, Quiet, HasStanza, Told, Tracked;
  }

  lemma NothingTold(pending: seq<Event>, text: string)
    requires NoReasoning(pending)
    ensures NoReasoning(pending + ContentEvents(text))
  {}

  lemma DoneDrains(s: Snap)
    requires s.state == StDone
    requires Valid(s)
    ensures Stepped(s, s.(buf := ""), [])
  {
    hide Valid, WellFormed, XmlWellFormed, Meaning, Shows, DecideAll;
    ValidFacts(s);
    var t := s.(buf := "");
    assert var t := s.(buf := ""); Shape(t) && Books(t) by {
      hide Unambiguous;
    }
    forall ext: string ensures Meaning(s.d, PhaseOf(s), s.buf + ext) == Meaning(s.d, PhaseOf(t), t.buf + ext) {
      DoneMeans(s.d, s.outcome, s.buf + ext);
      DoneMeans(s.d, s.outcome, t.buf + ext);
    }
    PhaseStep(s, t);
    assert s.emitted + [] == s.emitted;
  }

  lemma EmptyBuffer(s: Snap)
    requires Finished(s) && s.final &&
             (s.state == StThinking || s.state == StContent || s.state == StRaw || s.state == StCheckingToolBlockEnd)
    ensures s.buf == ""
  {}

  lemma BlankBuffer(s: Snap)
    requires Finished(s) && IsAfterCall(s.state)
    ensures SkipSpace(s.buf) == ""
  {}

  lemma ContentFacts(s: Snap)
    requires s.state == StContent
    requires Valid(s)
    ensures Shape(s)
  {
    hide Shape, Faithful;
  }

  lemma RawFacts(s: Snap)
    requires s.state == StRaw
    requires Valid(s)
    ensures Shape(s)
  {
    hide Shape, Faithful;
  }

  lemma ThinkFacts(s: Snap)
    requires s.state == StThinking
    requires Valid(s)
    ensures |s.buf| <= |s.full| && s.buf == s.full[|s.full| - |s.buf|..]
  {
    hide Faithful, ThinkingBooks, FlatBooks;
  }

  ghost predicate Prepared(s: Snap, m: Snap) {
    && s.state == StThinking && m.state == StThinking && m.d == s.d && m.thinking == s.thinking && m.full == s.full &&
       m.final == s.final
    && m.emitted == s.emitted && (m.buf == s.buf || |m.buf| < |s.buf|) && (Told(s) ==> Told(m))
  }

  /** After the scan, nothing but the scan's own fields has changed, and the flag says whether a stanza has opened. */
  ghost predicate Scanned(s: Snap, t: Snap) {
    && t == s.(scanFrom := t.scanFrom, stanza := t.stanza) && t.stanza == HasStanza(t.d, t.full)
    && Valid(t)
  }

  lemma AlreadyScanned(s: Snap)
    requires s.stanza && HasStanza(s.d, s.full)
    requires Valid(s)
    ensures Scanned(s, s)
  {
    hide Valid, HasStanza, WellFormed, XmlWellFormed;
  }

  lemma ScanMoves(s: Snap, next: nat, hit: bool)
    requires s.state == StThinking && (next == 0 || next + STANZA_HOLDBACK <= |s.full|) &&
             (hit <==> HasStanza(s.d, s.full))
    requires !hit ==> forall j :: 0 <= j < next ==> !StanzaAt(s.d, s.full[j..])
    requires Valid(s)
    ensures Scanned(s, s.(scanFrom := next, stanza := hit))
  {
    hide Valid, HasStanza, StanzaAt, WellFormed, XmlWellFormed;
    ScanStep(s, next, hit);
  }

  lemma PreparedBy(s: Snap, scanned: Snap, m: Snap)
    requires s.state == StThinking && scanned == s.(scanFrom := scanned.scanFrom, stanza := scanned.stanza)
    requires m == scanned || (THINK_START <= s.buf && m == Thought(scanned, |THINK_START|, ""))
    requires |s.buf| <= |s.full| && s.buf == s.full[|s.full| - |s.buf|..]
    ensures Prepared(s, m) && m.state == StThinking && m.stanza == scanned.stanza && m.d == s.d && m.full == s.full
  {
    hide WellFormed, XmlWellFormed, ReasoningOf;
    if m != scanned {
      assert m.emitted == s.emitted + [] == s.emitted;
      assert s.buf[..|THINK_START|] == THINK_START;
      ThoughtTold(scanned, |THINK_START|, "");
    }
  }

  /** The scan and the dropped `<think>` belong to the same step. */
  lemma ThinkSteps(s: Snap, m: Snap, t: Snap, events: seq<Event>)
    requires Prepared(s, m)
    requires Stepped(m, t, events)
    ensures Stepped(s, t, events)
  {
    hide Valid, HasStanza, Quiet, WellFormed, XmlWellFormed, Told, TracksAt;
  }

  /** A block found after the end-of-sentence token begins after it, line breaks or not. */
  lemma RawStartBefore(table: seq<Syntax>, buf: string, found: Option<Found>, eos: nat)
    requires found.None? ==> NoOpener(table, buf, 0, |buf|)
    requires found.Some? ==>
             NoOpener(table, buf, 0, found.value.start) && found.value.rawStart <= found.value.start <= |buf| &&
                 eos <= found.value.rawStart
    requires eos <= |buf|
    ensures NoOpener(table, buf, 0, eos)
  {
    hide OpenAt;
  }

  /** The scan of the part not scanned before decides for the whole text. */
  lemma StanzaScanned(d: Reader, full: string, from: nat, hit: bool)
    requires from <= |full| && (hit <==> HasStanza(d, full[from..]))
    requires forall j :: 0 <= j < from ==> !StanzaAt(d, full[j..])
    ensures hit <==> HasStanza(d, full)
    ensures !hit ==> forall j :: 0 <= j <= |full| ==> !StanzaAt(d, full[j..])
  {
    hide StanzaAt;
    assert forall j :: from <= j <= |full| ==> full[from..][j - from..] == full[j..];
    if HasStanza(d, full[from..]) {
      var j :| 0 <= j <= |full| - from && StanzaAt(d, full[from..][j..]);
      assert full[from..][j..] == full[from + j..];
    }
    if HasStanza(d, full) {
      var j :| 0 <= j <= |full| && StanzaAt(d, full[j..]);
      assert StanzaAt(d, full[from..][j - from..]);
    }
  }

  lemma CallFacts(s: Snap)
    requires IsXmlState(s.state) && InCall(s.state)
    requires Valid(s)
    ensures |s.calls| == |s.read| + 1
  {
    hide Valid, WellFormed, XmlWellFormed, OpenBooks;
    DialectOf(s);
  }

  lemma MarkerInText(s: Snap)
    requires Valid(s)
    ensures s.base <= s.marker <= |s.full|
  {
    hide Shape, Books, Faithful;
  }
}
