/** `ParseCompletionSyntax` and its GLM and Qwen counterparts (dsml/decode.go:106-173, dsml/glm.go:179-221,
    dsml/qwen.go:206-248), as written over absolute offsets, proved to be the message of `Completion`. */
module Parser {
  import opened Text
  import opened Markup
  import opened Calls
  import opened Grammar
  import opened Phases
  import opened Transitions
  import opened Decode
  import opened XmlDecode
  import opened Completion
  import opened EndHandlers

  /** `readUntilStop` at the end-of-sentence token: the text in front of it. */
  method ReadUntilStop(text: string, index: nat) returns (content: string)
    requires index <= |text|
    ensures content == UpToEos(text[index..])
  {
    var pos := IndexFrom(text, index, EOS);
    if pos < 0 {
      return text[index..];
    }
    assert text[index..pos] == text[index..][..pos - index];
    return text[index..pos];
  }

  /** `rawCompletionMessage`, for the text after the reasoning. */
  method RawMessage(text: string, base: nat, reason: Reason) returns (m: Parsed)
    requires base <= |text|
    ensures m == Degraded(text[base..], reason)
  {
    var content := ReadUntilStop(text, base);
    m := Parsed(TrimSpace(content), "", [], Some(reason));
  }

  /** Content without a block, checked for markers that escaped one. */
  method PlainReply(d: Reader, text: string, base: nat, content: string) returns (m: Parsed)
    requires base <= |text|
    ensures m == PlainMessage(d, text[base..], content)
  {
    hide TrimSpace;
    var trimmed := TrimSpace(content);
    if !IsXml(d.dialect) && HasStrayMarker(trimmed) {
      m := RawMessage(text, base, StrayMarker);
    } else {
      m := Parsed(trimmed, "", [], None);
    }
  }

  function WithExact(calls: seq<ToolCall>, exact: string): (r: seq<ToolCall>)
    ensures |r| == |calls|
  {
    seq(|calls|, i requires 0 <= i < |calls| => calls[i].(exact := exact))
  }

  lemma {:induction false} ExactReturned(json: Json, read: seq<Call>, exact: string)
    ensures WithExact(AllReturned(json, read, ""), exact) == AllReturned(json, read, exact)
  {
    hide Arguments;
    if read != [] {
      ExactReturned(json, read[..|read| - 1], exact);
    }
  }

  /** The block that opens at `f`. */
  method BlockReply(d: Reader, text: string, base: nat, f: Found) returns (m: Parsed)
    requires base <= f.rawStart <= f.start < |text|
    requires if f.implicit then OpensTag(text[f.start..], f.syn.invokeStart) else f.syn.toolStart <= text[f.start..]
    ensures m == BlockMessage(d, text[base..], f.rawStart - base, !f.implicit,
                              BatchScan(d, f.syn, f.implicit, text[f.start..]))
  {
    hide BatchScan, TrimSpace, WellFormed, UpToEos, AllReturned, OpensTag;
    var ok, calls, end, rawBlock;
    ghost var read;
    ok, calls, end, rawBlock, read := ParseToolCalls(d, f.start, f.rawStart, text, f.syn, f.implicit);
    if !ok {
      m := RawMessage(text, base, MalformedBlock);
      return;
    }
    if !f.implicit {
      ExactReturned(d.json, read, rawBlock);
      calls := WithExact(calls, rawBlock);
    }
    var trailing := ReadUntilStop(text, end);
    if TrimSpace(trailing) != "" {
      m := RawMessage(text, base, TextAfterBlock);
      return;
    }
    Pieces(text, base, f.rawStart, end);
    m := Parsed(TrimSpace(text[base..f.rawStart]), "", calls, None);
  }

  /** Offsets into the text and into its end after the reasoning. */
  lemma Pieces(text: string, base: nat, rawStart: nat, end: nat)
    requires base <= rawStart <= end <= |text|
    ensures var t := text[base..];
            && text[base..rawStart] == t[..rawStart - base]
            && text[rawStart..end] == t[rawStart - base..|t| - |text[end..]|]
  {}

  lemma RawStartShifts(text: string, base: nat, n: nat)
    requires base <= n <= |text| && (base == 0 || text[base - 1] == '>')
    ensures base <= RawStart(text, n) && RawStart(text[base..], n - base) == RawStart(text, n) - base
  {
    if n >= 2 {
      assert text[n - 2..n][0] == text[n - 2] && text[n - 2..n][1] == text[n - 1];
      if n - base >= 2 {
        assert text[base..][n - base - 2..n - base] == text[n - 2..n];
      }
    }
  }

  /** The batch reader of the block dialects, from `base` on. */
  method ParseBlocks(d: Reader, text: string, base: nat) returns (m: Parsed)
    requires !IsXml(d.dialect) && d.table != [] && base <= |text| && (base == 0 || text[base - 1] == '>')
    ensures m == ParseContent(d, text[base..])
  {
    hide MarkerAt, NextMarker, WellFormed, BlockMessage, PlainMessage, BatchScan, OpenAt, NoOpener, Index;
    ghost var t := text[base..];
    var found := FindToolBlockStart(d.table, text, base);
    var eos := IndexFrom(text, base, EOS);
    if found == None || (0 <= eos < found.value.start) {
      NoBlock(d, text, base, found, eos);
      var content := ReadUntilStop(text, base);
      m := PlainReply(d, text, base, content);
      return;
    }
    var f := found.value;
    RawStartShifts(text, base, f.start);
    OpenTagThere(d.table, text[f.start..], f.syn, f.implicit);
    BlockHere(d, text, base, f, eos);
    m := BlockReply(d, text, base, f);
  }

  /** No block in front of the end of the sentence. */
  lemma NoBlock(d: Reader, text: string, base: nat, found: Option<Found>, eos: int)
    requires !IsXml(d.dialect) && base <= |text| && eos == IndexFrom(text, base, EOS)
    requires found == None ==> NoOpener(d.table, text, base, |text|)
    requires found.Some? ==>
             base <= found.value.start < |text| && NoOpener(d.table, text, base, found.value.start) &&
                 0 <= eos < found.value.start
    ensures ParseContent(d, text[base..]) == PlainMessage(d, text[base..], UpToEos(text[base..]))
  {
    hide MarkerAt, NextMarker, WellFormed, PlainMessage, OpenAt, Index, FirstMarker;
    var t := text[base..];
    OpenersShift(d.table, text, base, if eos < 0 then |text| else eos);
    if eos >= 0 {
      EosIsFirst(d, t, eos - base);
      StopsThere(d, t, eos - base);
    } else {
      NothingFirst(d, t);
      NextMarkerIs(d, t, |t|);
    }
  }

  lemma OpenersShift(table: seq<Syntax>, text: string, base: nat, to: nat)
    requires base <= to <= |text|
    ensures NoOpener(table, text, base, to) ==> NoOpener(table, text[base..], 0, to - base)
  {
    hide OpenAt;
    assert forall j :: base <= j <= |text| ==> text[base..][j - base..] == text[j..];
  }

  lemma StopsThere(d: Reader, t: string, n: nat)
    requires FirstMarker(d, t, n) && EOS <= t[n..]
    ensures NextMarker(d, t) == n && MarkerAt(d, t[n..]) == Stop && n < |t|
  {
    hide NextMarker, OpenAt;
    NextMarkerIs(d, t, n);
  }

  /** The block found is the first marker. */
  lemma BlockHere(d: Reader, text: string, base: nat, f: Found, eos: int)
    requires !IsXml(d.dialect) && base <= f.start < |text| && (base == 0 || text[base - 1] == '>') &&
             eos == IndexFrom(text, base, EOS)
    requires OpenAt(d.table, text[f.start..]) == Opens(f.syn, f.implicit) && NoOpener(d.table, text, base, f.start)
    requires base <= f.rawStart <= f.start && f.rawStart == RawStart(text, f.start) && (eos < 0 || f.start <= eos)
    ensures ParseContent(d, text[base..])
         == BlockMessage(d, text[base..], f.rawStart - base, !f.implicit,
                         BatchScan(d, f.syn, f.implicit, text[f.start..]))
  {
    hide MarkerAt, NextMarker, WellFormed, OpenAt, NoOpener, Index, FirstMarker, BlockMessage, BatchScan, RawStart,
         ParseContent;
    var t := text[base..];
    var n := f.start - base;
    assert t[n..] == text[f.start..];
    RawStartShifts(text, base, f.start);
    OpenersShift(d.table, text, base, f.start);
    // The end-of-sentence token does not begin where a block opens.
    assert Index(t, EOS) != n && RawStart(t, n) <= n by {
      OpenerIsTag(d.table, t[n..], f.syn, f.implicit);
      IndexIsFirst(t, EOS);
    }
    OpenerIsFirst(d, t, Found(n, RawStart(t, n), f.syn, f.implicit));
    BlockIsNext(d, t, n, f.syn, f.implicit);
  }

  lemma OpenTagThere(table: seq<Syntax>, s: string, syn: Syntax, implicit: bool)
    requires OpenAt(table, s) == Opens(syn, implicit)
    ensures if implicit then OpensTag(s, syn.invokeStart) else syn.toolStart <= s
  {
    hide OpensTag;
    ToolStartKinds(table, s);
    InvokeKinds(table, s);
    if implicit {
      InvokeOpensTag(table, s);
    } else {
      OpenAtTag(table, s);
    }
  }

  lemma {:induction false} InvokeOpensTag(table: seq<Syntax>, s: string)
    requires InvokeAt(table, s) != NoMarker
    ensures InvokeAt(table, s).Opens? && OpensTag(s, InvokeAt(table, s).syn.invokeStart)
  {
    if !OpensTag(s, table[0].invokeStart) {
      InvokeOpensTag(table[1..], s);
    }
  }

  lemma BlockIsNext(d: Reader, t: string, n: nat, syn: Syntax, implicit: bool)
    requires FirstMarker(d, t, n) && MarkerAt(d, t[n..]) == Opens(syn, implicit)
    ensures n < |t|
    ensures ParseContent(d, t) == BlockMessage(d, t, RawStart(t, n), !implicit, BatchScan(d, syn, implicit, t[n..]))
  {
    hide NextMarker, MarkerAt, BlockMessage, BatchScan;
    NextMarkerIs(d, t, n);
  }

  /** The batch reader of the XML dialects, from `base` on. */
  method ParseXml(d: Reader, text: string, base: nat) returns (m: Parsed)
    requires IsXml(d.dialect) && base <= |text|
    ensures m == ParseContent(d, text[base..])
  {
    hide MarkerAt, NextMarker, XmlWellFormed, BlockMessage, PlainMessage, ScanXml, Index;
    var start := IndexFrom(text, base, d.xml.callStart);
    var eos := IndexFrom(text, base, EOS);
    XmlTagsNonEmpty(d.xml);
    if start < 0 || (0 <= eos < start) {
      NoCall(d, text, base, start, eos);
      var content := ReadUntilStop(text, base);
      m := PlainReply(d, text, base, content);
      return;
    }
    CallHere(d, text, base, start, eos);
    m := XmlReply(d, text, base, start);
  }

  lemma NoCall(d: Reader, text: string, base: nat, start: int, eos: int)
    requires IsXml(d.dialect) && base <= |text| && eos == IndexFrom(text, base, EOS) &&
             start == IndexFrom(text, base, d.xml.callStart)
    requires start < 0 || 0 <= eos < start
    ensures ParseContent(d, text[base..]) == PlainMessage(d, text[base..], UpToEos(text[base..]))
  {
    hide MarkerAt, NextMarker, XmlWellFormed, PlainMessage, Index, FirstMarker;
    var t := text[base..];
    if eos >= 0 {
      EosIsFirst(d, t, eos - base);
      StopsThere(d, t, eos - base);
    } else {
      NothingFirst(d, t);
      NextMarkerIs(d, t, |t|);
    }
  }

  lemma CallHere(d: Reader, text: string, base: nat, start: nat, eos: int)
    requires IsXml(d.dialect) && base <= |text| && eos == IndexFrom(text, base, EOS) &&
             start == IndexFrom(text, base, d.xml.callStart)
    requires eos < 0 || start <= eos
    ensures base <= start && start + |d.xml.callStart| <= |text|
    ensures ParseContent(d, text[base..]) ==
            BlockMessage(d, text[base..], start - base, false, ScanXml(d, text[start + |d.xml.callStart|..]))
  {
    hide MarkerAt, NextMarker, XmlWellFormed, BlockMessage, Index, FirstMarker, ScanXml;
    var t := text[base..];
    var n := start - base;
    assert Index(t, EOS) >= 0 ==> Index(t, EOS) != Index(t, d.xml.callStart) by {
      IndexIsFirst(t, EOS);
      IndexIsFirst(t, d.xml.callStart);
      var n := Index(t, EOS);
      if n >= 0 {
        EosIsNoCall(d.xml, t[n..]);
      }
    }
    XmlTagsNonEmpty(d.xml);
    CallIsFirst(d, t, n);
    CallIsNext(d, t, n);
    assert t[n..][|d.xml.callStart|..] == text[start + |d.xml.callStart|..];
  }

  lemma CallIsNext(d: Reader, t: string, n: nat)
    requires IsXml(d.dialect) && FirstMarker(d, t, n) && d.xml.callStart <= t[n..]
    ensures n < |t|
    ensures ParseContent(d, t) == BlockMessage(d, t, n, false, ScanXml(d, t[n..][|d.xml.callStart|..]))
  {
    hide NextMarker, BlockMessage, ScanXml, EOS;
    NextMarkerIs(d, t, n);
    assert t[n..] + "" == t[n..];
    UnlikeEosIsFinal(t[n..], d.xml.callStart, "");
  }

  /** The calls whose first `<tool_call>` is at `start`. */
  method XmlReply(d: Reader, text: string, base: nat, start: nat) returns (m: Parsed)
    requires IsXml(d.dialect) && base <= start && start + |d.xml.callStart| <= |text|
    ensures m == BlockMessage(d, text[base..], start - base, false, ScanXml(d, text[start + |d.xml.callStart|..]))
  {
    hide GlmName, QwenFn, TrimSpace, XmlWellFormed, UpToEos, AllReturned;
    var ok, calls, end;
    ghost var read;
    if d.dialect == Glm {
      ok, calls, end, read := GlmParseToolCalls(d, text, start + |d.xml.callStart|);
    } else {
      ok, calls, end, read := QwenParseToolCalls(d, text, start + |d.xml.callStart|);
    }
    if !ok {
      m := RawMessage(text, base, MalformedBlock);
      return;
    }
    var trailing := ReadUntilStop(text, end);
    if TrimSpace(trailing) != "" {
      m := RawMessage(text, base, TextAfterBlock);
      return;
    }
    Pieces(text, base, start, end);
    m := Parsed(TrimSpace(text[base..start]), "", calls, None);
  }

  /** The whole reader: reasoning up to the last structural `</think>`, then content and calls. */
  method ParseText(d: Reader, text: string, thinking: bool) returns (m: Parsed)
    requires d.table != []
    ensures m == ParseCompletion(d, text, thinking)
  {
    hide LastStructural, ParseContent, TrimSpace, Wrappers;
    var base, reasoning := 0, "";
    if thinking {
      var end := LastStructuralIndex(Wrappers(d), text, THINK_END);
      if end < 0 {
        return Parsed("", ReasoningText(text), [], None);
      }
      reasoning := ReasoningText(text[..end]);
      base := end + |THINK_END|;
      assert text[end..][..|THINK_END|] == THINK_END;
      assert text[base - 1] == text[end..][7] == '>';
    }
    assert text[0..] == text;
    if IsXml(d.dialect) {
      m := ParseXml(d, text, base);
    } else {
      m := ParseBlocks(d, text, base);
    }
    if thinking {
      m := m.(reasoning := reasoning);
    }
  }
}
