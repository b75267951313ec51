/** A reply with open reasoning (dsml/stream.go:283, dsml/decode.go:124): the stream decoder ends the reasoning
    at the first `</think>`, the batch reader at the last structural one. */
module Reasoning {
  import opened Text
  import opened ToolText
  import opened Markup
  import opened Calls
  import opened Grammar
  import opened Phases
  import opened Transitions
  import opened Decode
  import opened Completion
  import opened DecoderState
  import opened MessageRoundTrip
  import opened StreamVsBatch
  import opened EventsVsMessage

  /** `</think>` begins at `j`. */
  predicate CloserAt(s: string, j: int) {
    0 <= j <= |s| && THINK_END <= s[j..]
  }

  predicate HasCloser(s: string) {
    exists j :: 0 <= j <= |s| && CloserAt(s, j)
  }

  /** The message when the reasoning ends at `end`, or never. */
  function SplitAt(d: Reader, t: string, end: int): Parsed
    requires end < 0 || CloserAt(t, end)
  {
    if end < 0 then Parsed("", ReasoningText(t), [], None)
    else ParseContent(d, t[end + |THINK_END|..]).(reasoning := ReasoningText(t[..end]))
  }

  lemma CloserFits(s: string, j: int)
    requires CloserAt(s, j)
    ensures j + 8 <= |s| && s[j] == '<' && s[j + 7] == '>'
  {
    assert s[j..][0] == s[j] && s[j..][7] == s[j + 7];
  }

  // ----- trimming keeps closers -----

  /** No byte of white space is the first or last byte of `</think>`. */
  lemma SpaceIsNoTag(s: string)
    ensures forall k :: 0 <= k < SpaceAt(s) ==> s[k] != '<'
    ensures forall k :: |s| - SpaceEnding(s) <= k < |s| ==> s[k] != '>'
  {}

  lemma {:induction false} TrimLeftKeeps(s: string)
    ensures HasCloser(TrimLeft(s)) <==> HasCloser(s)
  {
    var k := SpaceAt(s);
    if k > 0 {
      SpaceIsNoTag(s);
      DroppedInFront(s, k);
      TrimLeftKeeps(s[k..]);
    }
  }

  lemma DroppedInFront(s: string, k: nat)
    requires k <= |s| && forall i :: 0 <= i < k ==> s[i] != '<'
    ensures HasCloser(s[k..]) <==> HasCloser(s)
  {
    if HasCloser(s) {
      var j :| 0 <= j <= |s| && CloserAt(s, j);
      CloserFits(s, j);
      assert s[k..][j - k..] == s[j..];
      assert CloserAt(s[k..], j - k);
    }
    if HasCloser(s[k..]) {
      var j :| 0 <= j <= |s[k..]| && CloserAt(s[k..], j);
      assert s[k..][j..] == s[k + j..];
      assert CloserAt(s, k + j);
    }
  }

  lemma {:induction false} TrimRightKeeps(s: string)
    ensures HasCloser(TrimRight(s)) <==> HasCloser(s)
  {
    var k := SpaceEnding(s);
    if k > 0 {
      SpaceIsNoTag(s);
      DroppedBehind(s, |s| - k);
      TrimRightKeeps(s[..|s| - k]);
    }
  }

  lemma DroppedBehind(s: string, n: nat)
    requires n <= |s| && forall i :: n <= i < |s| ==> s[i] != '>'
    ensures HasCloser(s[..n]) <==> HasCloser(s)
  {
    if HasCloser(s) {
      var j :| 0 <= j <= |s| && CloserAt(s, j);
      CloserFits(s, j);
      CutKeeps(s, j, n);
    }
    if HasCloser(s[..n]) {
      var j :| 0 <= j <= |s[..n]| && CloserAt(s[..n], j);
      CloserFits(s[..n], j);
      assert s[..n][j..] == s[j..n];
      assert s[j..][..8] == s[..n][j..][..8] == THINK_END;
      assert CloserAt(s, j);
    }
  }

  /** A closer in front of a cut survives it. */
  lemma CutKeeps(s: string, j: int, n: nat)
    requires CloserAt(s, j) && j + 8 <= n <= |s|
    ensures CloserAt(s[..n], j)
  {
    assert s[..n][j..] == s[j..n];
    assert s[j..][..8] == THINK_END;
    assert s[j..n][..8] == s[j..][..8];
  }

  /** The reasoning of a message holds a closer exactly when the text it is taken from does. */
  lemma ReasoningKeeps(s: string)
    ensures HasCloser(ReasoningText(s)) <==> HasCloser(s)
  {
    hide TrimLeft, TrimRight, HasCloser;
    var u := TrimPrefix(s, THINK_START);
    TrimLeftKeeps(u);
    TrimRightKeeps(TrimLeft(u));
    if THINK_START <= s {
      assert HasCloser(s[|THINK_START|..]) <==> HasCloser(s) by {
        assert s == THINK_START + s[7..];
        assert forall i :: 0 < i < 7 ==> s[i] != '<';
        DroppedInFront(s[1..], 6);
        assert s[1..][6..] == s[7..];
        FrontIsNoCloser(s);
      }
    }
  }

  lemma FrontIsNoCloser(s: string)
    requires THINK_START <= s
    ensures HasCloser(s[1..]) <==> HasCloser(s)
  {
    assert s[1] == THINK_START[1] == 't';
    if HasCloser(s) {
      var j :| 0 <= j <= |s| && CloserAt(s, j);
      assert THINK_END[1] == '/' && s[j..][1] == s[j + 1];
      assert s[1..][j - 1..] == s[j..];
      assert CloserAt(s[1..], j - 1);
    }
    if HasCloser(s[1..]) {
      var j :| 0 <= j <= |s[1..]| && CloserAt(s[1..], j);
      assert s[1..][j..] == s[j + 1..];
      assert CloserAt(s, j + 1);
    }
  }

  // ----- the two splits -----

  /** Nothing in front of the first closer is one. */
  lemma FirstIsAlone(t: string)
    ensures var i := Index(t, THINK_END);
            if i < 0 then !HasCloser(t) else CloserAt(t, i) && i + 8 <= |t| && !HasCloser(t[..i])
  {
    hide Index;
    IndexIsFirst(t, THINK_END);
    var i := Index(t, THINK_END);
    if i >= 0 {
      forall j | 0 <= j <= i ensures CloserAt(t[..i], j) ==> j < i && CloserAt(t, j) {
        CloserOfPrefix(t, i, j);
      }
    }
  }

  lemma CloserOfPrefix(t: string, i: nat, j: nat)
    requires j <= i <= |t|
    ensures CloserAt(t[..i], j) ==> j < i && CloserAt(t, j)
  {
    if CloserAt(t[..i], j) {
      CloserFits(t[..i], j);
      assert t[..i][j..] == t[j..i];
      assert t[j..][..8] == t[j..i][..8] == THINK_END;
    }
  }

  /** With reasoning the two readers agree exactly when the first closer is the last structural one. Then both
      read the same reply; otherwise the batch reader's reasoning swallows what the stream already showed. */
  lemma ThinkingAgrees(d: Reader, t: string)
    ensures var i, l := Index(t, THINK_END), LastStructural(Wrappers(d), t, THINK_END);
            && (i < 0 || CloserAt(t, i)) && (l < 0 || CloserAt(t, l))
            && DecideAll(d, true, t) == (if i < 0 then Verdict("", None) else Decide(d, t[i + |THINK_END|..]))
            && ParseCompletion(d, t, true) == SplitAt(d, t, l)
            && (ParseCompletion(d, t, true) == SplitAt(d, t, i) <==> i == l)
  {
    hide Index, LastStructural, Wrappers, ParseContent, Decide, HasCloser, ReasoningText;
    var i, l := Index(t, THINK_END), LastStructural(Wrappers(d), t, THINK_END);
    FirstIsAlone(t);
    // The structural closer is a closer, so never in front of the first.
    assert var l := LastStructural(Wrappers(d), t, THINK_END);
           l >= 0 ==> CloserAt(t, l) && 0 <= Index(t, THINK_END) <= l by {
      IndexIsFirst(t, THINK_END);
    }
    if i != l {
      ReasoningKeeps(t[..i]);
      SwallowedCloser(t, i, l);
    }
  }

  /** The batch reader's reasoning then holds the closer at which the stream ended it. */
  lemma SwallowedCloser(t: string, i: int, l: int)
    requires CloserAt(t, i) && (l < 0 || (CloserAt(t, l) && i < l))
    ensures HasCloser(ReasoningText(if l < 0 then t else t[..l]))
  {
    hide HasCloser;
    CloserFits(t, i);
    if l < 0 {
      Closes(t, i);
      ReasoningKeeps(t);
    } else {
      CloserFits(t, l);
      assert i + 8 <= l by {
        assert i + 8 <= l by {
          CloserFits(t, i);
          CloserFits(t, l);
          assert forall k :: 0 <= k < 8 ==> t[i + k] == t[i..][k];
          assert forall k :: 0 < k < 8 ==> THINK_END[k] != '<';
        }
      }
      CutKeeps(t, i, l);
      Closes(t[..l], i);
      ReasoningKeeps(t[..l]);
    }
  }

  lemma Closes(s: string, j: int)
    requires CloserAt(s, j)
    ensures HasCloser(s)
  {}

  /** Streaming refines batch with reasoning too, where the splits agree: see EventsVsMessage.EventsNameCalls. */
  lemma ThinkingEventsNameCalls(d: Reader, t: string, events: seq<Event>)
    requires Shows(d, events, DecideAll(d, true, t)) && ToolsOf(events) != []
    requires Index(t, THINK_END) == LastStructural(Wrappers(d), t, THINK_END)
    ensures var i := Index(t, THINK_END);
            i >= 0 && i + |THINK_END| <= |t| && NamesCalls(d, t[i + |THINK_END|..], events, ParseCompletion(d, t, true))
  {
    assert DecideAll(d, true, t).calls.Some? by {
      hide ToolsOf, ContentOf;
    }
    hide Index, LastStructural, Wrappers, ParseContent, Decide, Shows, NamesCalls, ReasoningText, ToolsOf;
    ThinkingAgrees(d, t);
    var i := Index(t, THINK_END);
    FirstIsAlone(t);
    var tail := t[i + |THINK_END|..];
    EventsNameCalls(d, tail, events);
    OnlyReasoning(d, tail, events, ParseCompletion(d, tail, false), ReasoningText(t[..i]));
  }

  lemma OnlyReasoning(d: Reader, t: string, events: seq<Event>, m: Parsed, reasoning: string)
    requires NamesCalls(d, t, events, m)
    ensures NamesCalls(d, t, events, m.(reasoning := reasoning))
  {
    hide Decide, Tells, AllValid, ToolsOf;
  }
}
