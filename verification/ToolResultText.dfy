/** Wrapped tool results (dsml/encode.go:302-333): the wrapper is told from whatever the results hold. */
module ToolResultText {
  import opened Text
  import opened ToolText

  const RESULT_START := "<tool_result>"
  const RESULT_END := "</tool_result>"

  lemma ResultTags()
    ensures IsCloseTag(RESULT_END)
  {
    assert RESULT_END[1..] == "/tool_result>";
  }

  function Wrapped(content: string): string {
    RESULT_START + Escape(content, RESULT_END) + RESULT_END
  }

  /** `RenderToolResult`. */
  method RenderToolResult(content: string) returns (r: string)
    ensures r == Wrapped(content)
  {
    hide Escape;
    ResultTags();
    var body := EscapeToolText(content, RESULT_END);
    r := RESULT_START + body + RESULT_END;
  }

  // ----- results one after the other -----

  /** The results of consecutive tool messages, in one user turn (tools.go:993-1016). */
  function Joined(contents: seq<string>): string {
    if contents == [] then "" else Wrapped(contents[0]) + Joined(contents[1..])
  }

  /** Reads them back: each result ends at its first close tag. */
  function ResultsIn(s: string): Option<seq<string>>
    decreases |s|
  {
    if s == "" then Some([])
    else if !(RESULT_START <= s) then None
    else
      var r := s[|RESULT_START|..];
      var end := Index(r, RESULT_END);
      if end < 0 then None
      else
        match ResultsIn(r[end + |RESULT_END|..])
        case None => None
        case Some(rest) => Some([Unescape(r[..end], RESULT_END)] + rest)
  }

  /** One result is read, and then the rest. */
  lemma OneResult(body: string, rest: string)
    requires Index(body + RESULT_END + rest, RESULT_END) == |body|
    ensures ResultsIn(RESULT_START + (body + RESULT_END + rest)) ==
            match ResultsIn(rest)
            case None => None
            case Some(more) => Some([Unescape(body, RESULT_END)] + more)
  {
    hide Index, Unescape;
    var r := body + RESULT_END + rest;
    var s := RESULT_START + r;
    assert s[|RESULT_START|..] == r && s[..|RESULT_START|] == RESULT_START;
    assert r[..|body|] == body && r[|body| + |RESULT_END|..] == rest;
  }

  /** Joined results are told apart, whatever they hold: close tags, opening tags, escaped spellings of them. */
  lemma {:induction false} ResultsReadBack(contents: seq<string>)
    ensures ResultsIn(Joined(contents)) == Some(contents)
    decreases |contents|
  {
    hide Escape, Unescape, Index, ResultsIn;
    if contents == [] {
      NoResults();
    } else {
      var c, rest := contents[0], Joined(contents[1..]);
      ResultTags();
      var body := Escape(c, RESULT_END);
      assert Joined(contents) == RESULT_START + (body + RESULT_END + rest);
      EscapedBodyEndsAtTag(c, RESULT_END, rest);
      OneResult(body, rest);
      RoundTrip(c, RESULT_END);
      ResultsReadBack(contents[1..]);
      assert contents == [c] + contents[1..];
    }
  }

  lemma NoResults()
    ensures ResultsIn("") == Some([])
  {}

  /** Results that read the same are the same. */
  lemma JoinedApart(a: seq<string>, b: seq<string>)
    requires Joined(a) == Joined(b)
    ensures a == b
  {
    hide Joined, ResultsIn;
    ResultsReadBack(a);
    ResultsReadBack(b);
  }

  // ----- one result in segments, with images between them -----

  function EscapedEach(texts: seq<string>): (r: seq<string>)
    ensures |r| == |texts|
  {
    if texts == [] then [] else EscapedEach(texts[..|texts| - 1]) + [Escape(texts[|texts| - 1], RESULT_END)]
  }

  /** The wrapper goes around the first and the last segment. */
  function Segments(texts: seq<string>): (r: seq<string>)
    ensures |r| == |texts|
  {
    var e := EscapedEach(texts);
    if texts == [] then []
    else
      var first := e[0 := RESULT_START + e[0]];
      first[|e| - 1 := first[|e| - 1] + RESULT_END]
  }

  /** `RenderToolResultParts`. */
  method RenderToolResultParts(texts: seq<string>) returns (out: seq<string>)
    ensures out == Segments(texts)
  {
    hide Escape;
    ResultTags();
    out := [];
    var i := 0;
    while i < |texts|
      invariant 0 <= i <= |texts| && out == EscapedEach(texts[..i])
    {
      assert texts[..i + 1][..i] == texts[..i];
      var e := EscapeToolText(texts[i], RESULT_END);
      out := out + [e];
      i := i + 1;
    }
    assert texts[..i] == texts;
    if |out| > 0 {
      out := out[0 := RESULT_START + out[0]];
      out := out[|out| - 1 := out[|out| - 1] + RESULT_END];
    }
  }

  lemma {:induction false} EscapedEachIs(texts: seq<string>)
    ensures forall i :: 0 <= i < |texts| ==> EscapedEach(texts)[i] == Escape(texts[i], RESULT_END)
  {
    hide Escape;
    if texts != [] {
      EscapedEachIs(texts[..|texts| - 1]);
    }
  }

  lemma StartHoldsNone(e: string)
    requires !Contains(e, RESULT_END)
    ensures !Contains(RESULT_START + e, RESULT_END)
  {
    hide Index;
    var s := RESULT_START + e;
    IndexIsFirst(e, RESULT_END);
    IndexIsFirst(s, RESULT_END);
    forall j | 0 <= j <= |s| ensures !(RESULT_END <= s[j..]) {
      if j < |RESULT_START| {
        DropAppend(RESULT_START, e, j);
        StartIsNoEnd(j, e);
      } else {
        DropFront(RESULT_START, e, j - |RESULT_START|);
      }
    }
  }

  lemma StartIsNoEnd(j: nat, e: string)
    requires j < |RESULT_START|
    ensures !(RESULT_END <= RESULT_START[j..] + e)
  {
    var s := RESULT_START[j..] + e;
    assert s[0] == RESULT_START[j] && (j == 0 ==> s[1] == 't');
    assert RESULT_END[0] == '<' && RESULT_END[1] == '/';
  }

  /** No segment but the last holds a close tag, and the last one only at its end. */
  lemma SegmentsHold(texts: seq<string>, i: nat)
    requires i < |texts|
    ensures i < |texts| - 1 ==> !Contains(Segments(texts)[i], RESULT_END)
    ensures i == |texts| - 1 ==> Index(Segments(texts)[i], RESULT_END) == |Segments(texts)[i]| - |RESULT_END|
  {
    hide Escape, Index, EscapedEach;
    ResultTags();
    EscapedEachIs(texts);
    var e := Escape(texts[i], RESULT_END);
    EscapedBodyStaysOpen(texts[i], RESULT_END);
    StartHoldsNone(e);
    var body := if i == 0 then RESULT_START + e else e;
    if i == |texts| - 1 {
      FirstCloseEndsBody(body, RESULT_END, "");
      assert body + RESULT_END + "" == body + RESULT_END == Segments(texts)[i];
    } else {
      assert Segments(texts)[i] == body;
    }
  }

  /** Across segments a close tag can form: they are only safe with something between them. */
  lemma SegmentsMustStayApart()
    ensures var texts := ["</tool_", "result>"];
            var s := Segments(texts)[0] + Segments(texts)[1];
            0 <= Index(s, RESULT_END) < |s| - |RESULT_END|
  {
    hide Index, Escape;
    var texts := ["</tool_", "result>"];
    EscapedEachIs(texts);
    assert Escape("</tool_", RESULT_END) == "</tool_" && Escape("result>", RESULT_END) == "result>" by {
      ResultTags();
      EscapeAbsent("</tool_", RESULT_END);
      EscapeAbsent("result>", RESULT_END);
    }
    var s := Segments(texts)[0] + Segments(texts)[1];
    assert s == RESULT_START + (RESULT_END + RESULT_END);
    IndexIsFirst(s, RESULT_END);
    assert RESULT_END <= s[|RESULT_START|..];
  }

}
