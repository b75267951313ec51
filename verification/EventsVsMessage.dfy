/** The events a run shows against the message it returns (dsml/stream.go:45-49): the same calls, and the same
    arguments except where a surviving literal holds an escaped close tag. */
module EventsVsMessage {
  import opened Text
  import opened ToolText
  import opened Markup
  import opened Calls
  import opened Grammar
  import opened Phases
  import opened Transitions
  import opened Decode
  import opened Completion
  import opened Encode
  import opened XmlEncode
  import opened DecoderState
  import opened StreamVsBatch

  // ----- how parameters are recorded -----

  /** A string is recorded alike by both readers; a literal is unescaped by the stream only. */
  predicate Recorded(tag: string, p: Param) {
    p.live == if p.isString || tag == "" then p.text else Unescape(p.text, tag)
  }

  predicate AllRecorded(tag: string, ps: seq<Param>) {
    forall i :: 0 <= i < |ps| ==> Recorded(tag, ps[i])
  }

  predicate CallsRecorded(tag: string, calls: seq<Call>) {
    forall i :: 0 <= i < |calls| ==> AllRecorded(tag, calls[i].params)
  }

  lemma {:induction false} BlockRecords(b: Block, r: string, calls: seq<Call>)
    requires CallsRecorded(b.syn.paramEnd, calls)
    ensures ScanBlock(b, r, calls).Closed? ==> CallsRecorded(b.syn.paramEnd, ScanBlock(b, r, calls).calls)
    decreases |r|, 2
  {
    hide ScanBody, InvokeHeader, SkipSpace, OpensTag, WellFormed, CallsRecorded, AllRecorded;
    var t := SkipSpace(r);
    assert ScanBlock(b, r, calls) == BlockAt(b, t, calls);
    NoneRecorded(b.syn.paramEnd);
    if OpensTag(t, b.syn.invokeStart) {
      match InvokeHeader(t)
      case None =>
        assert ScanInvoke(b, t, calls) == Bad(t);
      case Some(h) =>
        BodyRecords(b, h.rest, calls, h.name, []);
        assert ScanInvoke(b, t, calls) == ScanBody(b, h.rest, calls, h.name, []);
    }
  }

  lemma NoneRecorded(tag: string)
    ensures AllRecorded(tag, []) && CallsRecorded(tag, [])
  {}

  lemma OneRecorded(tag: string, calls: seq<Call>, name: string, ps: seq<Param>, p: Param)
    ensures CallsRecorded(tag, calls) && AllRecorded(tag, ps) ==> CallsRecorded(tag, calls + [Call(name, ps)])
    ensures AllRecorded(tag, ps) && Recorded(tag, p) ==> AllRecorded(tag, ps + [p])
  {
    hide Recorded;
  }

  lemma {:induction false} BodyRecords(b: Block, r: string, calls: seq<Call>, name: string, ps: seq<Param>)
    requires CallsRecorded(b.syn.paramEnd, calls) && AllRecorded(b.syn.paramEnd, ps)
    ensures ScanBody(b, r, calls, name, ps).Closed? ==>
            CallsRecorded(b.syn.paramEnd, ScanBody(b, r, calls, name, ps).calls)
    decreases |r|, 1
  {
    hide ScanBlock, ScanValue, ParamHeader, SkipSpace, OpensTag, Arguments, CallsRecorded, AllRecorded;
    var t := SkipSpace(r);
    TagsNonEmpty(b.syn);
    assert ScanBody(b, r, calls, name, ps) == BodyAt(b, t, calls, name, ps);
    if b.syn.invokeEnd <= t {
      OneRecorded(b.syn.paramEnd, calls, name, ps, Param("", "", "", true));
      BlockRecords(b, t[|b.syn.invokeEnd|..], calls + [Call(name, ps)]);
    } else if OpensTag(t, b.syn.paramStart) {
      match ParamHeader(t)
      case None =>
        assert ScanParam(b, t, calls, name, ps) == Bad(t);
      case Some(h) =>
        ValueRecords(b, h, calls, name, ps);
        assert ScanParam(b, t, calls, name, ps) == ScanValue(b, h.rest, calls, name, ps, h.name, h.isString);
    }
  }

  lemma {:induction false} ValueRecords(b: Block, h: Header, calls: seq<Call>, name: string, ps: seq<Param>)
    requires CallsRecorded(b.syn.paramEnd, calls) && AllRecorded(b.syn.paramEnd, ps)
    ensures var scan := ScanValue(b, h.rest, calls, name, ps, h.name, h.isString);
            scan.Closed? ==> CallsRecorded(b.syn.paramEnd, scan.calls)
    decreases |h.rest|, 2
  {
    hide ScanBody, WellFormed, Index, Unescape, CallsRecorded, AllRecorded;
    TagsNonEmpty(b.syn);
    var end := Index(h.rest, b.syn.paramEnd);
    if end >= 0 {
      var p := BlockParam(b.syn, h.name, h.rest[..end], h.isString);
      OneRecorded(b.syn.paramEnd, calls, name, ps, p);
      BodyRecords(b, h.rest[end + |b.syn.paramEnd|..], calls, name, ps + [p]);
    }
  }

  // ----- what the events name -----

  /** The names events announce, in order. */
  function Started(events: seq<Event>): seq<string> {
    if events == [] then []
    else
      var e := events[|events| - 1];
      Started(events[..|events| - 1]) + if e.CallStart? then [e.name] else []
  }

  /** The final arguments events report, in order. */
  function Ended(events: seq<Event>): seq<string> {
    if events == [] then []
    else
      var e := events[|events| - 1];
      Ended(events[..|events| - 1]) + if e.CallEnd? then [e.arguments] else []
  }

  lemma OneNamed(events: seq<Event>, e: Event)
    ensures Started(events + [e]) == Started(events) + if e.CallStart? then [e.name] else []
    ensures Ended(events + [e]) == Ended(events) + if e.CallEnd? then [e.arguments] else []
  {
    assert (events + [e])[..|events|] == events;
  }

  /** Fragments name nothing. */
  lemma {:induction false} FragmentsNameNothing(events: seq<Event>, more: seq<Event>)
    requires forall i :: 0 <= i < |more| ==> more[i].ArgumentsDelta?
    ensures Started(events + more) == Started(events) && Ended(events + more) == Ended(events)
  {
    hide Started, Ended;
    if more == [] {
      assert events + more == events;
    } else {
      var init, e := more[..|more| - 1], more[|more| - 1];
      assert events + more == events + init + [e];
      FragmentsNameNothing(events, init);
      OneNamed(events + init, e);
    }
  }

  lemma {:induction false} ParamEventsAreFragments(json: Json, index: nat, ps: seq<Param>)
    ensures forall i :: 0 <= i < |ParamEvents(json, index, ps)| ==> ParamEvents(json, index, ps)[i].ArgumentsDelta?
    ensures forall i :: 0 <= i < |XmlParamEvents(index, ps)| ==> XmlParamEvents(index, ps)[i].ArgumentsDelta?
  {
    hide HasDuplicate, Fragment;
    if ps != [] {
      ParamEventsAreFragments(json, index, ps[..|ps| - 1]);
    }
  }

  /** The events of a call between its start and its end. */
  function Middle(json: Json, xml: bool, index: nat, c: Call): seq<Event> {
    if xml then XmlParamEvents(index, c.params)
    else ParamEvents(json, index, c.params) +
         [ArgumentsDelta(index, if HasDuplicate(c.params) || c.params == [] then Arguments(json, c.params, true)
             else "}")]
  }

  lemma CallNamed(json: Json, xml: bool, events: seq<Event>, index: nat, c: Call)
    ensures var more := events + if xml then XmlCallEvents(json, index, c) else CallEvents(json, index, c);
            Started(more) == Started(events) + [c.name] &&
                Ended(more) == Ended(events) + [Arguments(json, c.params, true)]
  {
    hide Started, Ended, ParamEvents, XmlParamEvents, Arguments, HasDuplicate;
    var start, end := CallStart(index, c.name), CallEnd(index, Arguments(json, c.params, true));
    var middle := Middle(json, xml, index, c);
    ParamEventsAreFragments(json, index, c.params);
    assert events + (if xml then XmlCallEvents(json, index, c) else CallEvents(json, index, c)) ==
           events + [start] + middle + [end];
    OneNamed(events, start);
    FragmentsNameNothing(events + [start], middle);
    OneNamed(events + [start] + middle, end);
  }

  /** The events of a block name its calls and report their arguments, once each and in order. */
  lemma {:induction false} BlockNamed(json: Json, xml: bool, calls: seq<Call>)
    ensures var events := BlockEvents(json, xml, calls);
            && |Started(events)| == |Ended(events)| == |calls|
            && forall i ::
               0 <= i < |calls| ==>
                   Started(events)[i] == calls[i].name && Ended(events)[i] == Arguments(json, calls[i].params, true)
  {
    hide Started, Ended, Arguments, XmlCallEvents, CallEvents;
    if calls == [] {
      NothingNamed();
    } else {
      var n := |calls| - 1;
      BlockNamed(json, xml, calls[..n]);
      CallNamed(json, xml, BlockEvents(json, xml, calls[..n]), n, calls[n]);
    }
  }

  lemma NothingNamed()
    ensures Started([]) == [] && Ended([]) == []
  {}

  // ----- the theorem -----

  /** The close tag values are read up to: the opened block's, or none for the XML dialects. */
  function ValueTag(d: Reader, t: string): string {
    var n := NextMarker(d, t);
    if n == |t| then ""
    else match MarkerAt(d, t[n..])
      case Opens(syn, _) => syn.paramEnd
      case _ => ""
  }

  /** A literal that survives under its key holds an escaped close tag. */
  predicate HidesClose(tag: string, ps: seq<Param>) {
    tag != "" && exists i :: 0 <= i < |ps| && IsKept(ps, i) && !ps[i].isString && HasEscapedClose(ps[i].text, tag)
  }

  lemma RecordedAgree(json: Json, tag: string, ps: seq<Param>)
    requires AllRecorded(tag, ps)
    ensures Arguments(json, ps, true) == Arguments(json, ps, false) <==> !HidesClose(tag, ps)
  {
    hide Arguments, Unescape, HasEscapedClose;
    forall i | 0 <= i < |ps|
      ensures Decodes(ps[i]) && (SameFragment(json, ps[i]) <==>
              ps[i].isString || tag == "" || !HasEscapedClose(ps[i].text, tag))
    {
      if tag != "" {
        UnescapeShortens(ps[i].text, tag);
      }
    }
    ArgumentsAgree(json, ps);
  }

  /** The calls the stream accepts were recorded by its grammar. */
  lemma AcceptedRecorded(d: Reader, t: string, cs: seq<Call>)
    requires Decide(d, t).calls == Some(cs)
    ensures CallsRecorded(ValueTag(d, t), cs)
  {
    hide NextMarker, MarkerAt, ScanOpened, ScanXml, Judge, CallsRecorded;
    var n := NextMarker(d, t);
    if n < |t| {
      match MarkerAt(d, t[n..])
      case NoMarker =>
      case Stop =>
      case Opens(syn, implicit) =>
        JudgedCalls(d, t, t[..n], implicit, ScanOpened(d, syn, implicit, t[n..]));
        OpenedRecorded(d, syn, implicit, t[n..]);
      case OpensXml =>
        var r := DropPrefix(t[n..], d.xml.callStart);
        JudgedCalls(d, t, t[..n], false, ScanXml(d, r));
        XmlRecorded(d, r);
    }
  }

  lemma JudgedCalls(d: Reader, whole: string, before: string, implicit: bool, scan: Scan)
    ensures Judge(d, whole, before, implicit, scan).calls.Some? ==>
              scan.Closed? && Judge(d, whole, before, implicit, scan).calls == Some(scan.calls)
  {
    hide SkipSpace, CutAfter;
  }

  lemma OpenedRecorded(d: Reader, syn: Syntax, implicit: bool, r: string)
    ensures var scan := ScanOpened(d, syn, implicit, r); scan.Closed? ==> CallsRecorded(syn.paramEnd, scan.calls)
  {
    hide ScanBlock, CallsRecorded;
    NoneRecorded(syn.paramEnd);
    BlockRecords(Block(syn, implicit, d.json, true), if implicit then r else DropPrefix(r, syn.toolStart), []);
  }

  /** GLM and Qwen record every parameter alike. */
  lemma XmlRecorded(d: Reader, r: string)
    ensures ScanXml(d, r).Closed? ==> CallsRecorded("", ScanXml(d, r).calls)
  {
    hide GlmName, QwenFn, Trimmed, LongTags;
    GlmNameIs(d.xml, r, []);
    QwenFnKeeps(d.xml, d.qwenLiteral, r, []);
  }

  /** The message of the text whose calls the stream accepts. */
  lemma AcceptedMessage(d: Reader, t: string, cs: seq<Call>)
    requires Decide(d, t).calls == Some(cs)
    ensures var m := ParseContent(d, t);
            if IsXml(d.dialect) || AllValid(d.json, cs, 0, false) then m.malformed == None &&
                SameCalls(d.json, m.calls, cs)
            else m.malformed == Some(MalformedBlock) && m.calls == []
  {
    hide NextMarker, MarkerAt, ScanOpened, ScanXml, Judge, ParseContent, AllValid, SameCalls, UpToEos, AsciiBlank,
         TrimSpace;
    var n := NextMarker(d, t);
    if n < |t| {
      match MarkerAt(d, t[n..])
      case NoMarker =>
      case Stop =>
      case Opens(syn, implicit) =>
        OpensIsDsml(d, t[n..]);
        StreamedBlockIsParsed(d, t, n, syn, implicit, cs);
      case OpensXml =>
        assert IsXml(d.dialect) && ParseContent(d, t).malformed == None &&
               SameCalls(d.json, ParseContent(d, t).calls, cs) by {
          OpensXmlIsXml(d, t[n..]);
          var r := DropPrefix(t[n..], d.xml.callStart);
          JudgedCalls(d, t, t[..n], false, ScanXml(d, r));
          XmlStreamedIsParsed(d, t, n, cs, ScanXml(d, r).rest);
        }
    }
  }

  lemma OpensXmlIsXml(d: Reader, s: string)
    ensures MarkerAt(d, s) == OpensXml ==> IsXml(d.dialect)
  {
    assert OpenAt(d.table, s) == NoMarker || OpenAt(d.table, s).Opens? by {
      ToolStartOpens(d.table, s);
    }
    hide OpenAt;
  }

  lemma {:induction false} ToolStartOpens(table: seq<Syntax>, s: string)
    ensures ToolStartAt(table, s) == NoMarker || ToolStartAt(table, s).Opens?
    ensures InvokeAt(table, s) == NoMarker || InvokeAt(table, s).Opens?
  {
    if table != [] {
      ToolStartOpens(table[1..], s);
    }
  }

  /** Events against a message: as many calls, the same names, and the same final arguments exactly where no
      surviving literal holds an escaped close tag. */
  predicate Tells(json: Json, tag: string, events: seq<Event>, cs: seq<Call>, returned: seq<ToolCall>) {
    && |Started(events)| == |Ended(events)| == |returned| == |cs|
    && (forall i :: 0 <= i < |cs| ==> Started(events)[i] == returned[i].name)
    && (forall i :: 0 <= i < |cs| ==> (Ended(events)[i] == returned[i].arguments <==> !HidesClose(tag, cs[i].params)))
  }

  /** What a run's tool events say about its message: they name the message's calls and report their arguments.
      The message has no calls only if a literal that the stream unescapes is no JSON as written; for GLM and Qwen
      that cannot happen and all arguments agree. */
  predicate NamesCalls(d: Reader, t: string, events: seq<Event>, m: Parsed) {
    && Decide(d, t).calls.Some?
    && var cs := Decide(d, t).calls.value;
       if IsXml(d.dialect) || AllValid(d.json, cs, 0, false) then m.malformed == None &&
           Tells(d.json, ValueTag(d, t), ToolsOf(events), cs, m.calls)
       else m.malformed == Some(MalformedBlock) && m.calls == []
  }

  /** The events of an accepted block tell the message with its calls. */
  lemma BlockTold(json: Json, xml: bool, tag: string, cs: seq<Call>, returned: seq<ToolCall>)
    requires CallsRecorded(tag, cs)
    ensures SameCalls(json, returned, cs) ==> Tells(json, tag, BlockEvents(json, xml, cs), cs, returned)
  {
    hide BlockEvents, CallsRecorded, HidesClose, Started, Ended, Arguments;
    BlockNamed(json, xml, cs);
    RecordedEverywhere(json, tag, cs);
  }

  /** Streaming refines batch: every run without reasoning whose events show a call. */
  lemma EventsNameCalls(d: Reader, t: string, events: seq<Event>)
    requires Shows(d, events, Decide(d, t)) && ToolsOf(events) != []
    ensures NamesCalls(d, t, events, ParseCompletion(d, t, false))
  {
    hide Decide, ParseContent, ToolsOf, ContentOf, BlockEvents, AllValid, CallsRecorded, ValueTag, Tells, SameCalls;
    var cs := Decide(d, t).calls.value;
    AcceptedMessage(d, t, cs);
    AcceptedRecorded(d, t, cs);
    BlockTold(d.json, IsXml(d.dialect), ValueTag(d, t), cs, ParseContent(d, t).calls);
  }

  lemma RecordedEverywhere(json: Json, tag: string, cs: seq<Call>)
    requires CallsRecorded(tag, cs)
    ensures forall i ::
            0 <= i < |cs| ==> (Arguments(json, cs[i].params, true) == Arguments(json, cs[i].params, false) <==>
                !HidesClose(tag, cs[i].params))
  {
    hide Arguments, AllRecorded, HidesClose;
    forall i | 0 <= i < |cs|
      ensures Arguments(json, cs[i].params, true) == Arguments(json, cs[i].params, false) <==>
              !HidesClose(tag, cs[i].params)
    {
      RecordedAgree(json, tag, cs[i].params);
    }
  }

  /** A JSON library that does not mind whether a close tag inside a literal is escaped: an object that is valid with
      it unescaped is valid as written. */
  ghost predicate EscapesAreText(json: Json) {
    forall tag, ps ::
        IsCloseTag(tag) && AllRecorded(tag, ps) && json.valid(Arguments(json, ps, true)) ==>
            json.valid(Arguments(json, ps, false))
  }

  /** The calls of an accepted block have valid arguments as the stream records them. */
  lemma AcceptedIsValid(d: Reader, t: string, cs: seq<Call>)
    requires Decide(d, t).calls == Some(cs) && !IsXml(d.dialect)
    ensures AllValid(d.json, cs, 0, true) && IsCloseTag(ValueTag(d, t))
  {
    hide NextMarker, MarkerAt, ScanOpened, ScanXml, Judge, AllValid, IsCloseTag, WellFormed;
    var n := NextMarker(d, t);
    if n < |t| {
      match MarkerAt(d, t[n..])
      case NoMarker =>
      case Stop =>
      case Opens(syn, implicit) =>
        JudgedCalls(d, t, t[..n], implicit, ScanOpened(d, syn, implicit, t[n..]));
        OpenedIsValid(d, syn, implicit, t[n..]);
        CloseTags(syn);
      case OpensXml =>
        OpensXmlIsXml(d, t[n..]);
    }
  }

  lemma OpenedIsValid(d: Reader, syn: Syntax, implicit: bool, r: string)
    ensures var scan := ScanOpened(d, syn, implicit, r); scan.Closed? ==> AllValid(d.json, scan.calls, 0, true)
  {
    hide ScanBlock, AllValid;
    var b := Block(syn, implicit, d.json, true);
    BlockMirrors(b, true, if implicit then r else DropPrefix(r, syn.toolStart), []);
    assert b.(live := true) == b;
  }

  /** With such a library tool events are never shown for a message without calls: the message has the calls they
      name. */
  lemma ShownIsNeverMalformed(d: Reader, t: string, events: seq<Event>)
    requires Shows(d, events, Decide(d, t)) && ToolsOf(events) != [] && EscapesAreText(d.json)
    ensures var m := ParseCompletion(d, t, false);
            Decide(d, t).calls.Some? && m.malformed == None &&
                Tells(d.json, ValueTag(d, t), ToolsOf(events), Decide(d, t).calls.value, m.calls)
  {
    hide Decide, ParseContent, ToolsOf, ContentOf, BlockEvents, AllValid, CallsRecorded, AllRecorded, ValueTag, Tells,
         EscapesAreText, IsCloseTag;
    EventsNameCalls(d, t, events);
    var cs := Decide(d, t).calls.value;
    if !IsXml(d.dialect) {
      AcceptedIsValid(d, t, cs);
      AcceptedRecorded(d, t, cs);
      ValidAsWritten(d.json, ValueTag(d, t), cs);
    }
  }

  lemma ValidAsWritten(json: Json, tag: string, cs: seq<Call>)
    requires EscapesAreText(json) && IsCloseTag(tag) && CallsRecorded(tag, cs) && AllValid(json, cs, 0, true)
    ensures AllValid(json, cs, 0, false)
  {
    hide Arguments, AllRecorded, IsCloseTag;
  }
}
