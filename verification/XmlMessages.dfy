/** Whole GLM and Qwen replies: written, they read back in both readers (dsml/glm.go, dsml/qwen.go). */
module XmlMessages {
  import opened Text
  import opened ToolText
  import opened Markup
  import opened Calls
  import opened Grammar
  import opened Phases
  import opened Transitions
  import opened Decode
  import opened XmlDecode
  import opened Completion
  import opened Encode
  import opened XmlEncode
  import opened MessageRoundTrip

  /** The calls a dialect writes, and how they read back. */
  function CallsText(d: Reader, cs: seq<Request>): string {
    if d.dialect == Glm then GlmText(d.xml, cs) else QwenText(d.xml, cs)
  }

  function CallsRead(d: Reader, cs: seq<Request>): (r: seq<Call>)
    ensures |r| == |cs|
  {
    if d.dialect == Glm then GlmCalls(cs) else QwenCalls(d.xml, d.qwenLiteral, cs)
  }

  /** Names and keys that read back. */
  predicate ReadableIn(d: Reader, cs: seq<Request>) {
    forall i :: 0 <= i < |cs| ==> if d.dialect == Glm then GlmReadable(cs[i]) else QwenReadable(cs[i])
  }

  /** The text after the first `<tool_call>`. */
  function AfterFirst(d: Reader, cs: seq<Request>): string
    requires cs != []
  {
    var t := CallsText(d, cs);
    if |d.xml.callStart| <= |t| then t[|d.xml.callStart|..] else ""
  }

  /** Text that begins with a tag. */
  lemma TagInFront(tag: string, t: string, rest: string)
    requires tag <= t
    ensures t == tag + t[|tag|..] && tag <= t + rest && (t + rest)[|tag|..] == t[|tag|..] + rest
  {
    assert t[..|tag|] == tag;
    assert (t + rest)[..|tag|] == t[..|tag|];
  }

  lemma GlmCallsScan(x: XmlSyntax, cs: seq<Request>, rest: string)
    requires LongTags(x) && cs != [] && (forall i :: 0 <= i < |cs| ==> GlmReadable(cs[i])) &&
             !(x.callStart <= SkipSpace(rest))
    ensures x.callStart <= GlmText(x, cs)
    ensures var after := GlmText(x, cs)[|x.callStart|..];
            GlmText(x, cs) == x.callStart + after && GlmName(x, after + rest, []) == Closed(GlmCalls(cs), rest)
  {
    hide XmlWellFormed, GlmName, GlmAfter, GlmText, GlmCalls, SkipSpace, GlmReadable;
    GlmStarts(x, cs);
    TagInFront(x.callStart, GlmText(x, cs), rest);
    GlmRoundTrip(x, cs, [], rest);
    var t := GlmText(x, cs) + rest;
    assert t == x.callStart + t[|x.callStart|..] by {
      TagInFront(x.callStart, t, "");
    }
    CallTagFirst(x, t[|x.callStart|..]);
    GlmAfterSteps(x, t, []);
    assert [] + GlmCalls(cs) == GlmCalls(cs);
  }

  lemma GlmStarts(x: XmlSyntax, cs: seq<Request>)
    requires cs != []
    ensures x.callStart <= GlmText(x, cs)
  {
    hide GlmPairs;
    assert GlmText(x, cs)[..|x.callStart|] == x.callStart;
  }

  lemma QwenCallsScan(x: XmlSyntax, literal: string -> bool, cs: seq<Request>, rest: string)
    requires LongTags(x) && cs != [] && (forall i :: 0 <= i < |cs| ==> QwenReadable(cs[i])) &&
             !(x.callStart <= SkipSpace(rest))
    ensures x.callStart <= QwenText(x, cs)
    ensures var after := QwenText(x, cs)[|x.callStart|..];
            QwenText(x, cs) == x.callStart + after &&
                QwenFn(x, literal, after + rest, []) == Closed(QwenCalls(x, literal, cs), rest)
  {
    hide XmlWellFormed, QwenFn, QwenAfter, QwenText, QwenCalls, SkipSpace, QwenReadable, QwenMore;
    QwenStarts(x, cs);
    TagInFront(x.callStart, QwenText(x, cs), rest);
    QwenFirstReads(x, literal, cs, rest);
  }

  lemma QwenFirstReads(x: XmlSyntax, literal: string -> bool, cs: seq<Request>, rest: string)
    requires LongTags(x) && cs != [] && (forall i :: 0 <= i < |cs| ==> QwenReadable(cs[i])) &&
             !(x.callStart <= SkipSpace(rest))
    ensures x.callStart <= QwenText(x, cs) + rest
    ensures QwenFn(x, literal, (QwenText(x, cs) + rest)[|x.callStart|..], []) == Closed(QwenCalls(x, literal, cs), rest)
  {
    hide XmlWellFormed, QwenFn, QwenAfter, QwenOne, QwenCall, SkipSpace, QwenReadable, QwenMore;
    var tail := QwenMore(x, cs[1..]) + rest;
    assert QwenText(x, cs) + rest == QwenOne(x, cs[0]) + tail;
    QwenOneReads(x, literal, cs[0], [], tail);
    assert [] + [QwenCall(x, literal, cs[0])] == [QwenCall(x, literal, cs[0])];
    QwenRoundTrip(x, literal, cs[1..], [QwenCall(x, literal, cs[0])], rest);
  }

  lemma QwenStarts(x: XmlSyntax, cs: seq<Request>)
    requires cs != []
    ensures x.callStart <= QwenText(x, cs)
  {
    hide QwenPairs, QwenMore;
    var one := QwenOne(x, cs[0]);
    assert one[..|x.callStart|] == x.callStart;
    assert QwenText(x, cs)[..|x.callStart|] == x.callStart;
  }

  /** The calls written after the content are the first marker. */
  lemma CallsAreFirst(d: Reader, content: string, rest: string)
    requires IsXml(d.dialect) && ContentBeforeTag(d, content)
    ensures var t := content + (d.xml.callStart + rest);
            && NextMarker(d, t) == |content| < |t| && MarkerAt(d, t[|content|..]) == OpensXml &&
               t[|content|..] == d.xml.callStart + rest
  {
    hide MarkerAt, NextMarker, XmlWellFormed;
    var tag := d.xml.callStart + rest;
    var t := content + tag;
    assert t[|content|..] == tag;
    CallTagOpens(d, rest);
    var b := content + "<";
    assert t == b + tag[1..];
    forall j | 0 <= j < |content| ensures MarkerAt(d, t[j..]) == NoMarker {
      assert b[|content|] == '<';
      SettledTextIsContent(d, b, tag[1..], j);
    }
    NextMarkerIs(d, t, |content|);
  }

  lemma CallTagOpens(d: Reader, rest: string)
    requires IsXml(d.dialect)
    ensures MarkerAt(d, d.xml.callStart + rest) == OpensXml && d.xml.callStart[0] == '<' && d.xml.callStart != ""
  {
    UnlikeEosIsFinal(d.xml.callStart, d.xml.callStart, rest);
  }

  /** A text whose first marker opens calls that close in front of `rest`. */
  predicate ClosesAt(d: Reader, t: string, n: nat, calls: seq<Call>, rest: string) {
    && IsXml(d.dialect) && n == NextMarker(d, t) && n < |t| && MarkerAt(d, t[n..]) == OpensXml
    && ScanXml(d, DropPrefix(t[n..], d.xml.callStart)) == Closed(calls, rest)
  }

  lemma ClosedParses(d: Reader, t: string, n: nat, calls: seq<Call>, rest: string)
    requires ClosesAt(d, t, n, calls, rest) && TrimSpace(UpToEos(rest)) == ""
    ensures ParseContent(d, t) == Parsed(TrimSpace(t[..n]), "", AllReturned(d.json, calls, ""), None)
  {
    hide NextMarker, MarkerAt, ScanXml, TrimSpace, UpToEos, AllReturned;
  }

  lemma ClosedDecides(d: Reader, t: string, n: nat, calls: seq<Call>, rest: string)
    requires ClosesAt(d, t, n, calls, rest) && EOS <= SkipSpace(rest)
    ensures Decide(d, t) == Verdict(t[..n], Some(calls))
  {
    hide NextMarker, MarkerAt, ScanXml, SkipSpace, CutAfter, EOS;
  }

  lemma ReplyCloses(d: Reader, content: string, cs: seq<Request>, rest: string)
    requires IsXml(d.dialect) && LongTags(d.xml) && cs != [] && ReadableIn(d, cs) && ContentBeforeTag(d, content)
    requires !(d.xml.callStart <= SkipSpace(rest))
    ensures var t := content + CallsText(d, cs) + rest;
            ClosesAt(d, t, |content|, CallsRead(d, cs), rest) && t[..|content|] == content
  {
    assert
      && CallsText(d, cs) == d.xml.callStart + AfterFirst(d, cs)
      && ScanXml(d, AfterFirst(d, cs) + rest) == Closed(CallsRead(d, cs), rest) by {
      hide XmlWellFormed, GlmName, QwenFn, GlmText, QwenText, GlmCalls, QwenCalls, SkipSpace, GlmReadable, QwenReadable;
      if d.dialect == Glm {
        GlmCallsScan(d.xml, cs, rest);
      } else {
        QwenCallsScan(d.xml, d.qwenLiteral, cs, rest);
      }
    }
    hide MarkerAt, NextMarker, XmlWellFormed, ScanXml, CallsText, CallsRead, AfterFirst, ReadableIn, ContentBeforeTag,
         SkipSpace;
    var inner := AfterFirst(d, cs) + rest;
    CallsAreFirst(d, content, inner);
    assert content + CallsText(d, cs) + rest == content + (d.xml.callStart + inner);
    assert (d.xml.callStart + inner)[|d.xml.callStart|..] == inner;
  }

  /** A reply with calls, ended by the end-of-sentence token: the batch reader returns names, keys and values in
      order, and the stream decoder shows the same calls. */
  lemma XmlReplyReads(dialect: Dialect, json: Json, literal: string -> bool, content: string, cs: seq<Request>,
          after: string)
    requires IsXml(dialect) && cs != []
    requires var d := ReaderOf(dialect, json, literal); ReadableIn(d, cs) && ContentBeforeTag(d, content)
    ensures var d := ReaderOf(dialect, json, literal);
            var t := content + CallsText(d, cs) + (EOS + after);
            && ParseContent(d, t) == Parsed(TrimSpace(content), "", AllReturned(json, CallsRead(d, cs), ""), None)
            && Decide(d, t) == Verdict(content, Some(CallsRead(d, cs)))
  {
    hide ClosesAt, XmlWellFormed, XmlForms, Table, CallsText, CallsRead, EOS, AllReturned, TrimSpace, ReadableIn,
         ContentBeforeTag, UpToEos, SkipSpace, ParseContent, Decide;
    var d := ReaderOf(dialect, json, literal);
    FormsAreLong();
    StartsWithEos(after);
    EosIsNoCall(d.xml, EOS + after);
    ReplyCloses(d, content, cs, EOS + after);
    NothingAfter(after);
    var t := content + CallsText(d, cs) + (EOS + after);
    ClosedParses(d, t, |content|, CallsRead(d, cs), EOS + after);
    ClosedDecides(d, t, |content|, CallsRead(d, cs), EOS + after);
  }
}
