/** What the stream decoder promises over whole runs: any chunking, every byte. */
module Streaming {
  import opened Text
  import opened ToolText
  import opened Markup
  import opened Calls
  import opened Grammar
  import opened Phases
  import opened Transitions
  import opened Decode
  import opened Completion
  import opened DecoderState
  import opened DecoderSteps
  import opened EndHandlers
  import opened CloseSteps
  import opened Completing
  import opened Stream
  import opened EventsVsMessage
  import opened Reasoning

  function Concat(chunks: seq<string>): string {
    if chunks == [] then "" else Concat(chunks[..|chunks| - 1]) + chunks[|chunks| - 1]
  }

  /** The reasoning, if any, ends at one place for both readers. */
  predicate OneSplit(d: Reader, thinking: bool, t: string) {
    thinking ==> Index(t, THINK_END) == LastStructural(Wrappers(d), t, THINK_END)
  }

  /** A whole run: the chunks are written one by one and the decoder is closed. Its events show the verdict on the
      whole text, its reasoning deltas spell the text in front of the first `</think>` but for dropped `<think>` tags,
      its message is the batch reader's, and where the reasoning has one end the events name the calls of the
      message. */
  method DecodeChunks(dialect: Dialect, thinking: bool, json: Json, literal: string -> bool, chunks: seq<string>)
      returns (events: seq<Event>, message: Parsed)
    ensures var d := ReaderOf(dialect, json, literal); Shows(d, events, DecideAll(d, thinking, Concat(chunks)))
    ensures Thinned(ReasoningPart(thinking, Concat(chunks)), ReasoningOf(events))
    ensures message == ParseCompletion(ReaderOf(dialect, json, literal), Concat(chunks), thinking)
    ensures var d, t := ReaderOf(dialect, json, literal), Concat(chunks);
            ToolsOf(events) != [] && OneSplit(d, thinking, t) ==> NamesCalls(d, ReplyText(thinking, t), events, message)
  {
    hide Valid, Waiting, Shows, DecideAll, ReaderOf, ParseCompletion, WellFormed, OneSplit, NamesCalls, ReplyText,
         ToolsOf, Told, Thinned, ReasoningPart, ReasoningOf, Consistent, Decided, BlockOver;
    var decoder := new StreamDecoder(dialect, thinking, json, literal);
    events := [];
    var i := 0;
    while i < |chunks|
      invariant 0 <= i <= |chunks| && fresh(decoder)
      invariant decoder.reader == ReaderOf(dialect, json, literal) && decoder.thinking == thinking && !decoder.finalPass
      invariant decoder.fullText == Concat(chunks[..i]) && decoder.seen.emitted == events
      invariant Consistent(decoder.Now())
    {
      var more := decoder.Write(chunks[i]);
      events := events + more;
      assert chunks[..i + 1][..i] == chunks[..i];
      i := i + 1;
    }
    assert chunks[..i] == chunks;
    var rest;
    rest, message := decoder.Close();
    events := events + rest;
    RunNamesCalls(decoder.reader, thinking, Concat(chunks), events);
  }

  lemma RunNamesCalls(d: Reader, thinking: bool, t: string, events: seq<Event>)
    requires Shows(d, events, DecideAll(d, thinking, t))
    ensures ToolsOf(events) != [] && OneSplit(d, thinking, t) ==>
              NamesCalls(d, ReplyText(thinking, t), events, ParseCompletion(d, t, thinking))
  {
    hide Shows, ParseCompletion, NamesCalls, ToolsOf, Index, LastStructural, Wrappers, Decide;
    if ToolsOf(events) != [] && OneSplit(d, thinking, t) {
      if thinking {
        ThinkingEventsNameCalls(d, t, events);
      } else {
        EventsNameCalls(d, t, events);
      }
    }
  }

  /** Two runs over the same text show the same calls and arguments, the same content but for the two line breaks in
      front of an accepted block, and the same reasoning but for `<think>` tags inside it. */
  lemma ChunkingDoesNotMatter(d: Reader, thinking: bool, xs: seq<string>, ys: seq<string>, a: seq<Event>, b: seq<Event>)
    requires Concat(xs) == Concat(ys)
    requires Shows(d, a, DecideAll(d, thinking, Concat(xs))) && Shows(d, b, DecideAll(d, thinking, Concat(ys)))
    requires Thinned(ReasoningPart(thinking, Concat(xs)), ReasoningOf(a)) &&
             Thinned(ReasoningPart(thinking, Concat(ys)), ReasoningOf(b))
    ensures ToolsOf(a) == ToolsOf(b)
    ensures ContentOf(a) == ContentOf(b) || ContentOf(a) + "\n\n" == ContentOf(b) ||
            ContentOf(b) + "\n\n" == ContentOf(a)
    ensures ContentOf(a) != ContentOf(b) ==> DecideAll(d, thinking, Concat(xs)).calls.Some? && !IsXml(d.dialect)
    ensures var r := ReasoningPart(thinking, Concat(xs));
            !Contains(r, THINK_START) ==> ReasoningOf(a) == r == ReasoningOf(b)
  {
    hide DecideAll, Concat, ContentOf, ToolsOf, Thinned, ReasoningPart, ReasoningOf;
    var v := DecideAll(d, thinking, Concat(xs));
    if !Contains(ReasoningPart(thinking, Concat(xs)), THINK_START) {
      NothingThinned(ReasoningPart(thinking, Concat(xs)), ReasoningOf(a));
      NothingThinned(ReasoningPart(thinking, Concat(xs)), ReasoningOf(b));
    }
    if ContentOf(a) + "\n\n" == v.content && ContentOf(b) + "\n\n" == v.content {
      assert ContentOf(a) == v.content[..|v.content| - 2] == ContentOf(b);
    }
  }

  lemma {:induction false} NothingThinned(text: string, shown: string)
    requires Thinned(text, shown) && !Contains(text, THINK_START)
    ensures shown == text
    decreases |text|
  {
    if text != "" {
      NothingThinned(text[1..], shown[1..]);
    }
  }

  // ----- no byte is lost -----

  /** What a state has consumed but not shown: the open block. */
  function Unshown(s: Snap): string
    requires Shape(s)
  {
    var end := |s.full| - |s.buf|;
    if IsOpenState(s.state) && s.rawStart <= end then s.full[s.rawStart..end] else ""
  }

  /** In every reachable state before the end of the sentence, without reasoning: the content shown, the
      open block and the buffer spell the text. */
  lemma BytesConserved(s: Snap)
    requires !s.thinking && s.state != StDone
    requires Valid(s)
    ensures Shape(s) && ContentOf(s.emitted) + Unshown(s) + s.buf == s.full
  {
    hide Valid, Shape, OpenBooks, FlatBooks, ThinkingBooks, Shows, ContentOf, Faithful, WellFormed, XmlWellFormed,
         Unshown;
    ValidFacts(s);
    if IsOpenState(s.state) {
      OpenConserved(s);
    } else {
      FlatConserved(s);
    }
  }

  lemma OpenConserved(s: Snap)
    requires Shape(s) && !s.thinking && IsOpenState(s.state) && OpenBooks(s)
    ensures ContentOf(s.emitted) + Unshown(s) + s.buf == s.full
  {
    hide Unambiguous, WellFormed, XmlWellFormed, ContentOf, ToolsOf, BlockEvents, CallSoFar;
    var end := |s.full| - |s.buf|;
    assert s.full[0..s.rawStart] + s.full[s.rawStart..end] + s.full[end..] == s.full;
  }

  lemma FlatConserved(s: Snap)
    requires Shape(s) && !s.thinking && Books(s) && (s.state == StThinking || s.state == StContent || s.state == StRaw)
    ensures ContentOf(s.emitted) + Unshown(s) + s.buf == s.full
  {
    hide Unambiguous, WellFormed, XmlWellFormed, ContentOf, ToolsOf;
    var end := |s.full| - |s.buf|;
    assert s.full[0..end] + s.full[end..] == s.full;
    assert ContentOf(s.emitted) + "" == ContentOf(s.emitted);
  }
}
