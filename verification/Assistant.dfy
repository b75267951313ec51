/** What the registry makes of a completion (tools.go:511-555): the strict reading, or the repaired one if only that
    has calls, and the sampled blocks remembered under the calls' new ids. */
module Assistant {
  import opened Text
  import opened ToolText
  import opened Markup
  import opened Calls
  import opened Grammar
  import opened Phases
  import opened Transitions
  import opened Decode
  import opened Completion
  import opened StructuralScan
  import opened Encode
  import opened RoundTrip
  import opened MessageRoundTrip
  import opened Parser
  import opened Repair
  import opened Replay

  /** The message a completion is taken for. */
  function Adopted(d: Reader, text: string, thinking: bool): Parsed {
    var strict := ParseCompletion(d, text, thinking);
    if strict.calls != [] || IsXml(d.dialect) then strict
    else
      match Repaired(d, text)
      case None => strict
      case Some(repaired) => if ParseCompletion(d, repaired, thinking).calls != [] then
          ParseCompletion(d, repaired, thinking) else strict
  }

  /** `ParseAssistantSyntax`, up to the ids. */
  method ParseAssistant(d: Reader, text: string, thinking: bool) returns (m: Parsed)
    requires d.table != []
    ensures m == Adopted(d, text, thinking)
  {
    hide ParseCompletion, Repaired, WellFormed, XmlWellFormed;
    m := ParseText(d, text, thinking);
    if |m.calls| == 0 && !IsXml(d.dialect) {
      var repaired := RepairCompletion(d, text);
      if repaired.Some? {
        var again := ParseText(d, repaired.value, thinking);
        if |again.calls| > 0 {
          m := again;
        }
      }
    }
  }

  /** The end of `ParseAssistantSyntax`: each call's block, if it has one, is remembered under its id; text that is no
      block is an error. */
  method RememberCalls(store: ReplayStore, calls: seq<ToolCall>, ids: seq<string>) returns (ok: bool)
    requires Replay.Valid(store.Now()) && |ids| == |calls|
    modifies store
    ensures Replay.Valid(store.Now())
    ensures ok <==> forall i :: 0 <= i < |calls| ==> Storable(ids[i], calls[i])
    ensures ok ==> store.Now() == PutEach(old(store.Now()), Stored(ids, calls))
    ensures !ok ==> exists k :: 0 <= k < |calls| && StopsAt(ids, calls, k) &&
                                store.Now() == PutEach(old(store.Now()), Stored(ids[..k], calls[..k]))
  {
    hide IsBlock, Replay.Valid, Put, PutEach, Stored;
    var i := 0;
    ghost var start := store.Now();
    NoneStored(start, ids, calls);
    while i < |calls|
      invariant 0 <= i <= |calls| && Replay.Valid(store.Now())
      invariant forall k :: 0 <= k < i ==> Storable(ids[k], calls[k])
      invariant store.Now() == PutEach(start, Stored(ids[..i], calls[..i]))
    {
      OneMoreStored(start, ids, calls, i);
      if calls[i].exact != "" {
        ok := store.Remember(ids[i], calls[i].exact);
        if !ok {
          assert StopsAt(ids, calls, i);
          return;
        }
      }
      i := i + 1;
    }
    assert ids[..i] == ids && calls[..i] == calls;
    ok := true;
  }

  predicate Storable(id: string, c: ToolCall) {
    id == "" || c.exact == "" || IsBlock(c.exact)
  }

  /** The first call whose text is no block. */
  predicate StopsAt(ids: seq<string>, calls: seq<ToolCall>, k: nat)
    requires k < |calls| == |ids|
  {
    !Storable(ids[k], calls[k]) && forall i :: 0 <= i < k ==> Storable(ids[i], calls[i])
  }

  /** The blocks to remember, in order. */
  function Stored(ids: seq<string>, calls: seq<ToolCall>): seq<(string, string)>
    requires |ids| == |calls|
  {
    if calls == [] then []
    else
      var n := |calls| - 1;
      Stored(ids[..n], calls[..n]) + if ids[n] == "" || calls[n].exact == "" then [] else [(ids[n], calls[n].exact)]
  }

  lemma NoneStored(s: Store, ids: seq<string>, calls: seq<ToolCall>)
    requires |ids| == |calls|
    ensures PutEach(s, Stored(ids[..0], calls[..0])) == s
  {}

  lemma OneMoreStored(s: Store, ids: seq<string>, calls: seq<ToolCall>, i: nat)
    requires |ids| == |calls| && i < |calls|
    ensures var before := PutEach(s, Stored(ids[..i], calls[..i]));
            PutEach(s, Stored(ids[..i + 1], calls[..i + 1])) ==
            if ids[i] == "" || calls[i].exact == "" then before else Put(before, ids[i], calls[i].exact)
  {
    hide Put;
    var a, b := Stored(ids[..i], calls[..i]), Stored(ids[..i + 1], calls[..i + 1]);
    assert ids[..i + 1][..i] == ids[..i] && calls[..i + 1][..i] == calls[..i];
    if ids[i] == "" || calls[i].exact == "" {
      assert b == a;
    } else {
      assert b == a + [(ids[i], calls[i].exact)];
      assert b[..|b| - 1] == a;
    }
  }

  /** The calls of a wrapped block are all remembered, and without an error. */
  lemma {:induction false} BlockIsStored(ids: seq<string>, calls: seq<ToolCall>, exact: string)
    requires |ids| == |calls| && "" !in ids && exact != "" && IsBlock(exact)
    requires forall i :: 0 <= i < |calls| ==> calls[i].exact == exact
    ensures Stored(ids, calls) == Named(ids, calls) && forall i :: 0 <= i < |calls| ==> Storable(ids[i], calls[i])
  {
    hide IsBlock;
    if calls != [] {
      var n := |calls| - 1;
      assert ids[..n] + [ids[n]] == ids;
      BlockIsStored(ids[..n], calls[..n], exact);
      assert Named(ids, calls) == Named(ids[..n], calls[..n]) + [(ids[n], exact)];
    }
  }

  // ----- a turn cut before the wrapper's close tag -----

  /** The calls of a cut block are never read: the scan reaches the end of the text. */
  lemma {:induction false} OpenScanFails(b: Block, cs: seq<Request>, calls: seq<Call>)
    requires Writable(b.syn) && Readable(b, cs) && !b.implicit
    ensures ScanBlock(b, OpenInvokes(b.syn, cs), calls).Bad?
  {
    hide ScanBlock, InvokeText, ReadRequest, WellFormed, Arguments, SkipSpace;
    if cs == [] {
      assert ScanBlock(b, "\n", calls).Bad? by {
        hide ScanInvoke;
        TagsNonEmpty(b.syn);
        BreakIsSpace();
        SkipNothing();
        BlockSkips(b, "\n", calls);
        BlockSteps(b, "", calls);
      }
    } else {
      var tail := OpenInvokes(b.syn, cs[1..]);
      assert OpenInvokes(b.syn, cs) == "\n" + InvokeText(b.syn, cs[0]) + tail;
      assert Readable(b, [cs[0]]) && Readable(b, cs[1..]);
      InvokeReads(b, cs[0], calls, tail);
      OpenScanFails(b, cs[1..], calls + [ReadRequest(b.syn, cs[0])]);
    }
  }

  lemma BreakIsSpace()
    ensures SkipSpace("\n") == ""
  {
    assert "\n"[1..] == "";
  }

  /** Read strictly, a cut reply is malformed and has no calls. */
  lemma CutIsMalformed(d: Reader, content: string, cs: seq<Request>, syn: Syntax)
    requires PlainContent(d, content) && !IsXml(d.dialect) && syn in d.table && Unambiguous(d.table) && Writable(syn)
    requires Readable(Block(syn, false, d.json, false), cs)
    ensures ParseContent(d, CutReply(syn, content, cs)) == Degraded(CutReply(syn, content, cs), MalformedBlock)
  {
    hide MarkerAt, NextMarker, WellFormed, ScanBlock, OpenInvokes, TrimSpace, UpToEos, PlainContent, Readable,
         RawStart, Writable, Unambiguous;
    var inner := OpenInvokes(syn, cs);
    var n := |content| + 2;
    var t := content + "\n\n" + syn.toolStart + inner;
    BlockIsFirst(d, content, syn, inner);
    TagsNonEmpty(syn);
    assert (syn.toolStart + inner)[|syn.toolStart|..] == inner;
    OpenScanFails(BatchBlock(d, syn, false), cs, []);
    assert ParseContent(d, t) == BlockMessage(d, t, RawStart(t, n), true, BatchScan(d, syn, false, t[n..]));
  }

  /** A turn whose wrapper was not closed is adopted as the turn that was written: behind reasoning exactly when the
      argument bodies of the reasoning close, and without reasoning always. */
  lemma CutTurnAdopted(dialect: Dialect, json: Json, literal: string -> bool, reasoning: string, content: string,
          cs: seq<Request>)
    requires IsBlockDialect(dialect) && Repairable(dialect, json, literal, content, cs)
    ensures var d, syn := ReaderOf(dialect, json, literal), Rendered(dialect);
            && (Adopted(d, THINK_START + reasoning + THINK_END + CutReply(syn, content, cs), true)
                == Parsed(TrimSpace(content), TrimSpace(reasoning),
                          AllReturned(json, ReadRequests(syn, cs), BlockText(syn, cs)), None)
               <==> BodiesClose(Wrappers(d), reasoning))
            && Adopted(d, CutReply(syn, content, cs), false)
               == Parsed(TrimSpace(content), "", AllReturned(json, ReadRequests(syn, cs), BlockText(syn, cs)), None)
  {
    hide Repaired, CutReply, WellFormed, LacksTags, AllTold, Writable, BlockText, PlainContent, Readable,
         ParseContent, ParseCompletion, TrimSpace, BodiesClose, NoCloser, AllReturned, ReadRequests, UpToEos,
         Structural, Passable, Wrappers, LastStructural, Table, XmlForms, Unambiguous, Rendered;
    var d, syn := ReaderOf(dialect, json, literal), Rendered(dialect);
    DialectReady(dialect, json, literal);
    ReadableRenders(Block(syn, false, json, false), cs);
    CutIsMalformed(d, content, cs, syn);
    CutHasNoCloser(Wrappers(d), syn, content, cs);
    ThinkingReads(d, reasoning, CutReply(syn, content, cs));
    WithoutReasoning(d, CutReply(syn, content, cs));
    CutTurnRecovered(dialect, json, literal, reasoning, content, cs);
    CutReplyRecovered(dialect, json, literal, content, cs);
    assert |AllReturned(json, ReadRequests(syn, cs), BlockText(syn, cs))| == |ReadRequests(syn, cs)|;
    if !BodiesClose(Wrappers(d), reasoning) {
      OtherwiseNotAdopted(d, reasoning, CutReply(syn, content, cs));
    }
  }

  /** A repair only appends, so reasoning that is not read back is not read back from the repaired text either. */
  lemma OtherwiseNotAdopted(d: Reader, reasoning: string, x: string)
    requires Structural(Wrappers(d)) && !BodiesClose(Wrappers(d), reasoning)
    ensures Adopted(d, THINK_START + reasoning + THINK_END + x, true).reasoning != TrimSpace(reasoning)
  {
    hide ParseCompletion, TrimSpace, BodiesClose, NoCloser, Structural, Wrappers, LastStructural, WellFormed,
         LostWrapper, SpellingIn, AfterReasoning, Count, Repeat;
    var t := THINK_START + reasoning + THINK_END + x;
    ThinkingReads(d, reasoning, x);
    if Repaired(d, t).Some? {
      assert t <= Repaired(d, t).value;
      var more := Repaired(d, t).value[|t|..];
      assert Repaired(d, t).value == THINK_START + reasoning + THINK_END + (x + more);
      ThinkingReads(d, reasoning, x + more);
    }
  }

  lemma WithoutReasoning(d: Reader, t: string)
    ensures ParseCompletion(d, t, false) == ParseContent(d, t)
  {
    hide ParseContent;
  }

}
