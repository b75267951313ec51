/** The decoder's steps while the reasoning is open (dsml/stream.go). */
module ThinkHandlers {
  import opened Text
  import opened ToolText
  import opened Markup
  import opened Calls
  import opened Grammar
  import opened Phases
  import opened Transitions
  import opened Decode
  import opened DecoderState
  import opened DecoderSteps
  import opened EndHandlers

  /** `emitReasoning`: an empty text makes no event. */
  function ReasoningEvents(text: string): seq<Event> {
    if text == "" then [] else [ReasoningDelta(text)]
  }

  function Reasoned(s: Snap, text: string): seq<Event> {
    s.emitted + ReasoningEvents(text)
  }

  lemma ReasonedIs(s: Snap, text: string)
    ensures ContentOf(Reasoned(s, text)) == ContentOf(s.emitted)
    ensures ToolsOf(Reasoned(s, text)) == ToolsOf(s.emitted)
  {
    if text != "" {
      OneMore(s.emitted, ReasoningDelta(text));
    } else {
      assert s.emitted + [] == s.emitted;
    }
  }

  /** The reasoning moves on by `n` bytes, of which `text` is shown. */
  function Thought(s: Snap, n: nat, text: string): Snap {
    Move(s, n).(emitted := Reasoned(s, text))
  }

  lemma {:induction false} ThinnedWhole(text: string)
    ensures Thinned(text, text)
  {
    if text != "" {
      ThinnedWhole(text[1..]);
    }
  }

  lemma {:induction false} ThinnedAppend(text: string, shown: string, more: string, seen: string)
    requires Thinned(text, shown) && Thinned(more, seen)
    ensures Thinned(text + more, shown + seen)
    decreases |text|
  {
    if text == "" && shown == "" {
      assert text + more == more && shown + seen == seen;
    } else if THINK_START <= text && Thinned(text[|THINK_START|..], shown) {
      DropAppend(text, more, |THINK_START|);
      PrefixExtends(text, more, THINK_START);
      ThinnedAppend(text[|THINK_START|..], shown, more, seen);
    } else {
      DropAppend(text, more, 1);
      DropAppend(shown, seen, 1);
      ThinnedAppend(text[1..], shown[1..], more, seen);
    }
  }

  lemma ReasonedText(s: Snap, text: string)
    ensures ReasoningOf(Reasoned(s, text)) == ReasoningOf(s.emitted) + text
  {
    assert (s.emitted + [ReasoningDelta(text)])[..|s.emitted|] == s.emitted;
    assert s.emitted + [] == s.emitted;
  }

  /** Reasoning shown, or a `<think>` passed over, is told. */
  lemma ThoughtTold(s: Snap, n: nat, text: string)
    requires n <= |s.buf| <= |s.full| && s.buf == s.full[|s.full| - |s.buf|..] && s.state == StThinking
    requires Thinned(Until(s.buf, n), text)
    ensures Told(s) ==> Told(Thought(s, n, text))
  {
    hide Thinned, ReasoningOf, Reasoned;
    ReasonedText(s, text);
    var k := |s.full| - |s.buf|;
    assert s.full[..k + n] == s.full[..k] + s.buf[..n];
    if Told(s) {
      ThinnedAppend(s.full[..k], ReasoningOf(s.emitted), s.buf[..n], text);
    }
  }

  lemma ThinkingLeftTold(s: Snap, idx: nat)
    requires Index(s.buf, THINK_END) == idx && idx + |THINK_END| <= |s.buf| && s.state == StThinking && s.thinking
    requires |s.buf| <= |s.full| && s.buf == s.full[|s.full| - |s.buf|..] &&
             EndFree(s.full, |s.full| - |s.buf|, s.final)
    ensures Told(s) ==> Told(ThinkingLeft(s, idx))
  {
    hide Thinned, ReasoningOf, Reasoned, Index, EndFree;
    var k := |s.full| - |s.buf|;
    FirstCloserAt(s.full, k, idx, s.final);
    ReasonedText(s, Until(s.buf, idx));
    assert s.full[..k + idx] == s.full[..k] + s.buf[..idx];
    assert FrontOf(s) == s.full[..k] && ReasoningPart(true, s.full) == s.full[..k + idx];
    ThinnedWhole(s.buf[..idx]);
    if Told(s) {
      ThinnedAppend(s.full[..k], ReasoningOf(s.emitted), s.buf[..idx], s.buf[..idx]);
    }
  }

  /** The reply begins behind the first `</think>`, and nothing of it is read yet. */
  lemma ThinkingLeftTracked(s: Snap, idx: nat)
    requires Index(s.buf, THINK_END) == idx && idx + |THINK_END| <= |s.buf| && s.state == StThinking && s.thinking
    requires |s.buf| <= |s.full| && s.buf == s.full[|s.full| - |s.buf|..] &&
             EndFree(s.full, |s.full| - |s.buf|, s.final)
    ensures Tracked(ThinkingLeft(s, idx))
  {
    hide Index, EndFree, Reasoned, MarkerAt;
    FirstCloserAt(s.full, |s.full| - |s.buf|, idx, s.final);
    assert Consumed(ThinkingLeft(s, idx)) == "";
  }

  lemma FirstCloserAt(full: string, k: nat, idx: nat, final: bool)
    requires k <= |full| && Index(From(full, k), THINK_END) == idx && EndFree(full, k, final)
    ensures Index(full, THINK_END) == k + idx
  {
    hide Index;
    IndexIsFirst(full[k..], THINK_END);
    assert full[k..][idx..] == full[k + idx..];
    forall j | 0 <= j < k + idx ensures !(THINK_END <= full[j..]) {
      if j >= k {
        assert full[j..] == full[k..][j - k..];
      }
    }
    IndexIs(full, THINK_END, k + idx);
  }

  lemma ThoughtBooks(s: Snap, n: nat, text: string)
    requires n <= |s.buf| && EndFree(s.buf, n, s.final) && Shape(s) && s.state == StThinking && Books(s)
    ensures var t := Thought(s, n, text); Shape(t) && Books(t)
  {
    hide ContentOf, ToolsOf, Index, WellFormed, XmlWellFormed, Unambiguous, StanzaAt, HasStanza, EndFree, OpenBooks,
         Shows, Reasoned;
    MoveConsumes(s, n);
    ReasonedIs(s, text);
    EndFreeMoves(s.full, |s.full| - |s.buf|, s.buf, n, s.final);
  }

  lemma EndFreeMoves(full: string, k: nat, buf: string, n: nat, final: bool)
    requires k <= |full| && buf == From(full, k) && n <= |buf| && EndFree(buf, n, final)
    ensures EndFree(full, k, final) ==> EndFree(full, k + n, final)
  {
    assert forall j :: k <= j <= |full| ==> full[j..] == buf[j - k..];
  }

  lemma ThoughtStep(s: Snap, n: nat, text: string)
    requires n <= |s.buf| && EndFree(s.buf, n, s.final) && s.state == StThinking
    requires Valid(s)
    ensures Valid(Thought(s, n, text))
  {
    hide Valid, Meaning, Shape, Books, EndFree, WellFormed, XmlWellFormed;
    ValidFacts(s);
    var t := Thought(s, n, text);
    ThoughtBooks(s, n, text);
    forall ext: string | s.final ==> ext == ""
      ensures Meaning(s.d, PhaseOf(s), s.buf + ext) == Meaning(s.d, PhaseOf(t), t.buf + ext)
    {
      ThoughtMeans(s.d, s.buf, n, ext, s.final);
    }
    PhaseStep(s, t);
  }

  lemma ThoughtMeans(d: Reader, buf: string, n: nat, ext: string, final: bool)
    requires n <= |buf| && EndFree(buf, n, final) && (final ==> ext == "")
    ensures Meaning(d, Thinking, buf + ext) == Meaning(d, Thinking, From(buf, n) + ext)
  {
    hide Meaning;
    assert buf + ext == buf[..n] + (buf[n..] + ext);
    EndFreeExtends(buf, n, ext, final);
    ThinkingEmits(d, buf[..n], buf[n..] + ext);
  }

  lemma EndFreeExtends(buf: string, n: nat, ext: string, final: bool)
    requires n <= |buf| && EndFree(buf, n, final) && (final ==> ext == "")
    ensures EndFree(buf + ext, n, final)
  {
    forall j | 0 <= j < n ensures !(THINK_END <= (buf + ext)[j..]) && (final || !Partial((buf + ext)[j..], THINK_END)) {
      DropAppend(buf, ext, j);
      if final {
        assert buf + ext == buf;
      } else {
        StaysUnpartial(buf[j..], THINK_END, ext);
      }
    }
  }

  /** A `<think>` in front of the buffer can be dropped. */
  lemma StartIsEndFree(buf: string, final: bool)
    requires THINK_START <= buf
    ensures EndFree(buf, |THINK_START|, final)
  {
    forall j | 0 <= j < |THINK_START| ensures !(THINK_END <= buf[j..]) && !Partial(buf[j..], THINK_END) {
      assert buf[j] == THINK_START[j] && buf[1] == 't';
      assert buf[j..][0] == buf[j];
      assert j == 0 ==> buf[j..][1] == 't';
    }
  }

  /** Bytes eight or more from the end of a buffer without `</think>`, or all of them once it is final. */
  lemma HeldBackIsEndFree(buf: string, n: nat, final: bool)
    requires Index(buf, THINK_END) < 0 && n <= |buf| && (final || n == 0 || n + |THINK_END| <= |buf|)
    ensures EndFree(buf, n, final)
  {
    IndexIsFirst(buf, THINK_END);
  }

  /** `</think>` found: content begins after it. */
  function ThinkingLeft(s: Snap, idx: nat): Snap {
    Move(s, idx + |THINK_END|).(emitted := Reasoned(s, Until(s.buf, idx)), state := StContent,
                                base := Position(s, idx + |THINK_END|), marker := Position(s, idx + |THINK_END|))
  }

  lemma ThinkingLeftStep(s: Snap, idx: nat)
    requires Index(s.buf, THINK_END) == idx && idx + |THINK_END| <= |s.buf| && s.state == StThinking
    requires Valid(s)
    ensures Valid(ThinkingLeft(s, idx))
  {
    assert var t := ThinkingLeft(s, idx);
           Shape(t) && Books(t) && Consumed(t) == "" && t.base <= t.marker <= |t.full| by {
      hide ContentOf, ToolsOf, WellFormed, XmlWellFormed, Unambiguous, StanzaAt, HasStanza, Index;
      MoveConsumes(s, idx + |THINK_END|);
      ReasonedIs(s, Until(s.buf, idx));
    }
    hide Valid, Meaning, Shape, Books, Consumed, WellFormed, XmlWellFormed, Index;
    ValidFacts(s);
    var t := ThinkingLeft(s, idx);
    assert PhaseOf(t) == Content("");
    forall ext: string ensures Meaning(s.d, PhaseOf(s), s.buf + ext) == Meaning(s.d, PhaseOf(t), t.buf + ext) {
      ThinkingEnds(s.d, s.buf, ext);
    }
    PhaseStep(s, t);
  }

  // ----- the stanza scan -----

  lemma ScanStep(s: Snap, scanFrom: nat, stanza: bool)
    requires s.state == StThinking
    requires scanFrom == 0 || scanFrom + STANZA_HOLDBACK <= |s.full|
    requires stanza ==> HasStanza(s.d, s.full)
    requires !stanza ==> forall j :: 0 <= j < scanFrom ==> !StanzaAt(s.d, s.full[j..])
    requires Valid(s)
    ensures Valid(s.(scanFrom := scanFrom, stanza := stanza))
  {
    hide Valid, Meaning, WellFormed, XmlWellFormed, Index, StanzaAt, HasStanza, ContentOf, ToolsOf;
    ValidFacts(s);
    PhaseStep(s, s.(scanFrom := scanFrom, stanza := stanza));
  }

  lemma ScanFacts(s: Snap)
    requires s.state == StThinking
    requires Valid(s)
    ensures ThinkingBooks(s)
  {
    hide WellFormed, XmlWellFormed, Index, StanzaAt, HasStanza, ContentOf, ToolsOf, Faithful, FlatBooks, ThinkingBooks;
  }

  /** A stanza opening that appears only with more input reaches past the held-back bytes. */
  lemma StanzaPersists(d: Reader, full: string, chunk: string, j: nat)
    requires j <= |full|
    ensures StanzaAt(d, From(full, j)) ==> StanzaAt(d, (full + chunk)[j..])
    ensures j + STANZA_HOLDBACK <= |full| ==> (StanzaAt(d, (full + chunk)[j..]) <==> StanzaAt(d, From(full, j)))
  {
    DropAppend(full, chunk, j);
    PrefixExtends(full[j..], chunk, d.xml.callStart);
    forall i | 0 <= i < |d.table|
      ensures d.table[i].toolStart <= full[j..] ==> d.table[i].toolStart <= (full + chunk)[j..]
      ensures j + STANZA_HOLDBACK <= |full| ==>
              (d.table[i].toolStart <= (full + chunk)[j..] <==> d.table[i].toolStart <= full[j..])
    {
      PrefixExtends(full[j..], chunk, d.table[i].toolStart);
      assert IsOpener(d.table[i].toolStart);
    }
    assert IsOpener(d.xml.callStart);
  }

  /** A step inside the reasoning. */
  lemma ThinkMoves(s: Snap, t: Snap, events: seq<Event>)
    requires t.d == s.d && t.thinking == s.thinking && t.full == s.full && t.final == s.final &&
             t.emitted == s.emitted + events
    requires s.state == StThinking &&
             (t.state == StThinking ==> t.stanza == HasStanza(t.d, t.full) && (|t.buf| < |s.buf| || Quiet(t)))
    requires |t.buf| < |s.buf| || (t.buf == s.buf && t.state == StThinking)
    requires (Told(s) ==> Told(t)) && (Tracked(s) ==> Tracked(t))
    requires Valid(t)
    ensures Stepped(s, t, events)
  {
    hide Valid, Quiet, HasStanza, WellFormed, XmlWellFormed, Told, Tracked;
  }

  lemma ThinkingLeftMoves(s: Snap, idx: nat)
    requires Index(s.buf, THINK_END) == idx && idx + |THINK_END| <= |s.buf| && s.state == StThinking
    requires Valid(s)
    ensures Stepped(s, ThinkingLeft(s, idx), ReasoningEvents(Until(s.buf, idx)))
  {
    hide Tracked, Valid, Stepped, Index, WellFormed, XmlWellFormed, ReasoningEvents, Told, EndFree, FlatBooks,
         HasStanza, StanzaAt, Faithful, Unambiguous;
    ValidFacts(s);
    ThinkingLeftStep(s, idx);
    ThinkingLeftTold(s, idx);
    ThinkingLeftTracked(s, idx);
    ThinkMoves(s, ThinkingLeft(s, idx), ReasoningEvents(Until(s.buf, idx)));
  }

  lemma StillThinking(t: Snap)
    ensures t.state == StThinking ==> Tracked(t)
  {}

  lemma ThoughtMoves(s: Snap, n: nat)
    requires 0 < n <= |s.buf| && EndFree(s.buf, n, s.final) && s.state == StThinking &&
             s.stanza == HasStanza(s.d, s.full)
    requires Valid(s)
    ensures Stepped(s, Thought(s, n, Until(s.buf, n)), ReasoningEvents(Until(s.buf, n)))
  {
    StillThinking(Thought(s, n, Until(s.buf, n)));
    hide Tracked, Valid, Stepped, HasStanza, EndFree, WellFormed, XmlWellFormed, ReasoningEvents, Books, Told, Thinned;
    ValidFacts(s);
    ThoughtStep(s, n, s.buf[..n]);
    ThinnedWhole(s.buf[..n]);
    ThoughtTold(s, n, s.buf[..n]);
    ThinkMoves(s, Thought(s, n, s.buf[..n]), ReasoningEvents(s.buf[..n]));
  }

  // ----- new input -----

  function Fed(s: Snap, chunk: string): Snap {
    s.(buf := s.buf + chunk, full := s.full + chunk)
  }

  lemma FedShape(s: Snap, chunk: string)
    requires Shape(s)
    ensures Shape(Fed(s, chunk)) && Consumed(Fed(s, chunk)) == Consumed(s)
  {
    hide Unambiguous;
    var k := |s.full| - |s.buf|;
    DropAppend(s.full, chunk, k);
    assert (s.full + chunk)[s.base..k] == s.full[s.base..k];
  }

  lemma FedThinking(s: Snap, chunk: string)
    requires Shape(s) && Books(s) && s.state == StThinking && !s.final
    ensures Books(Fed(s, chunk))
  {
    hide ContentOf, ToolsOf, WellFormed, XmlWellFormed, Unambiguous, StanzaAt, HasStanza;
    var k := |s.full| - |s.buf|;
    EndFreeExtends(s.full, k, chunk, false);
    FedStanza(s.d, s.full, chunk, s.scanFrom, s.stanza);
  }

  lemma FedStanza(d: Reader, full: string, chunk: string, scanFrom: nat, stanza: bool)
    requires scanFrom == 0 || scanFrom + STANZA_HOLDBACK <= |full|
    ensures HasStanza(d, full) ==> HasStanza(d, full + chunk)
    ensures (forall j :: 0 <= j < scanFrom ==> !StanzaAt(d, full[j..])) ==>
            (forall j :: 0 <= j < scanFrom ==> !StanzaAt(d, (full + chunk)[j..]))
  {
    hide StanzaAt;
    forall j | 0 <= j <= |full|
      ensures StanzaAt(d, full[j..]) ==> StanzaAt(d, (full + chunk)[j..])
      ensures j < scanFrom ==> (StanzaAt(d, (full + chunk)[j..]) <==> StanzaAt(d, full[j..]))
    {
      StanzaPersists(d, full, chunk, j);
    }
  }

  lemma FedText(s: Snap, chunk: string)
    requires Shape(s) && s.base <= s.marker <= |s.full|
    ensures ShownToBlock(s) ==> ShownToBlock(Fed(s, chunk))
    ensures (s.full + chunk)[s.base..s.marker] == Before(s)
    ensures s.marker == s.rawStart + 2 ==>
            (s.full + chunk)[s.rawStart..s.marker] == Between(s.full, s.rawStart, s.marker)
  {
    hide ContentOf, ToolsOf, WellFormed, XmlWellFormed, Unambiguous;
    var f := s.full + chunk;
    if ShownToBlock(s) {
      assert f[s.base..s.rawStart] == s.full[s.base..s.rawStart];
    }
  }

  lemma FedOpen(s: Snap, chunk: string)
    requires OpenBooks(s) && Shape(s) && s.base <= s.marker <= |s.full|
    ensures OpenBooks(Fed(s, chunk))
    ensures (s.full + chunk)[s.base..s.marker] == Before(s)
  {
    hide Shape, WellFormed, XmlWellFormed, BlockEvents, ParamEvents, HasDuplicate, Collect, XmlParamEvents,
         AtOpeningTag, ShownToBlock;
    FedText(s, chunk);
    OpeningTagStays(s.syntax, s.buf, chunk);
    assert CallSoFar(Fed(s, chunk)) == CallSoFar(s);
  }

  lemma OpeningTagStays(syn: Syntax, buf: string, chunk: string)
    ensures AtOpeningTag(syn, buf) ==> AtOpeningTag(syn, buf + chunk)
    ensures buf != "" ==> (buf + chunk)[0] == buf[0]
  {
    PrefixExtends(buf, chunk, "\n\n");
    if "\n\n" <= buf {
      DropAppend(buf, chunk, 2);
      PrefixExtends(buf[2..], chunk, syn.toolStart);
    } else if syn.toolStart <= buf {
      PrefixExtends(buf, chunk, syn.toolStart);
      assert (buf + chunk)[0] == '<';
    }
  }

  lemma FedBooks(s: Snap, chunk: string)
    requires Shape(s) && Books(s) && s.base <= s.marker <= |s.full| && !s.final
    ensures Books(Fed(s, chunk))
    ensures IsOpenState(s.state) ==> (s.full + chunk)[s.base..s.marker] == Before(s)
  {
    hide OpenBooks, FlatBooks, ThinkingBooks, Consumed, Shows, Shape, WellFormed, XmlWellFormed;
    FedShape(s, chunk);
    if IsOpenState(s.state) {
      FedOpen(s, chunk);
    } else if s.state == StThinking {
      FedThinking(s, chunk);
    } else {
      FedFlat(s, chunk);
    }
  }

  lemma FedFlat(s: Snap, chunk: string)
    requires Shape(s) && Shape(Fed(s, chunk)) && Consumed(Fed(s, chunk)) == Consumed(s)
    ensures FlatBooks(s) ==> FlatBooks(Fed(s, chunk))
  {
    hide Consumed, Unambiguous, WellFormed, XmlWellFormed, ContentOf, ToolsOf;
  }

  lemma FedTold(s: Snap, chunk: string)
    requires Shape(s)
    ensures Told(s) ==> Told(Fed(s, chunk))
  {
    hide Thinned, ReasoningOf, Index, Unambiguous;
    assert FrontOf(Fed(s, chunk)) == FrontOf(s) by {
      DropAppend(s.full, chunk, |s.full| - |s.buf|);
    }
    if Index(s.full, THINK_END) >= 0 {
      IndexExtends(s.full, chunk, THINK_END);
      DropAppend(s.full, chunk, Index(s.full, THINK_END));
    }
  }

  /** New input is part of whatever was going to follow. */
  lemma FedTracked(s: Snap, chunk: string)
    requires Shape(s) && s.base <= |s.full|
    ensures Tracked(s) ==> Tracked(Fed(s, chunk))
  {
    hide Index, TracksAt, Unambiguous, WellFormed;
    var t := Fed(s, chunk);
    if Tracked(s) && s.state != StThinking && !s.final {
      if s.thinking {
        IndexExtends(s.full, chunk, THINK_END);
      }
      DropAppend(s.full, chunk, s.base);
      forall ext: string ensures TracksAt(t, From(t.full, t.base) + ext, ext) {
        assert TracksAt(s, From(s.full, s.base) + (chunk + ext), chunk + ext);
        assert From(s.full, s.base) + (chunk + ext) == From(t.full, t.base) + ext;
        FedTracks(s, chunk, From(t.full, t.base) + ext, ext);
      }
    }
  }

  lemma FedTracks(s: Snap, chunk: string, r: string, ext: string)
    requires Shape(s) && TracksAt(s, r, chunk + ext)
    ensures TracksAt(Fed(s, chunk), r, ext)
  {
    hide MarkerAt, NextMarker, ScanOpened, ScanFrom, Unambiguous, WellFormed, Consumed, SpotOf, Alike, ReplyCloses;
    FedShape(s, chunk);
    assert s.buf + (chunk + ext) == s.buf + chunk + ext;
    assert SpotOf(Fed(s, chunk)) == SpotOf(s) by {
      SameSpot(s, Fed(s, chunk));
    }
    if Classify(s.buf, s.syntax.invokeStart) == No {
      NoStaysNo(s.buf, s.syntax.invokeStart, chunk);
    }
  }

  lemma SameSpot(s: Snap, t: Snap)
    requires t.d == s.d && t.state == s.state && t.syntax == s.syntax && t.seenOp == s.seenOp &&
             t.implicit == s.implicit && t.read == s.read && t.name == s.name && t.ps == s.ps &&
             t.paramName == s.paramName && t.paramIsString == s.paramIsString
    ensures SpotOf(t) == SpotOf(s)
  {}

  lemma NoStaysNo(b: string, prefix: string, ext: string)
    requires Classify(b, prefix) == No
    ensures Classify(b + ext, prefix) == No
  {
    if |b| <= |prefix| {
      var k :| 0 <= k < |b| && b[k] != prefix[k];
      assert (b + ext)[k] == b[k];
    } else if prefix <= b {
      assert (b + ext)[|prefix|] == b[|prefix|];
    } else {
      var k :| 0 <= k < |prefix| && b[k] != prefix[k];
      assert (b + ext)[k] == b[k];
    }
  }

  /** New input keeps the invariant. */
  lemma FedStep(s: Snap, chunk: string)
    requires !s.final
    requires Valid(s)
    ensures Valid(Fed(s, chunk)) && (Told(s) ==> Told(Fed(s, chunk))) && (Tracked(s) ==> Tracked(Fed(s, chunk)))
  {
    hide Tracked, Valid, Meaning, Shape, Books, Consumed, WellFormed, XmlWellFormed, DecideAll, Told;
    ValidFacts(s);
    var t := Fed(s, chunk);
    FedShape(s, chunk);
    FedBooks(s, chunk);
    FaithfulAfterInput(s.d, s.thinking, s.full, PhaseOf(s), s.buf, chunk);
    assert PhaseOf(t) == PhaseOf(s);
    FedTold(s, chunk);
    FedTracked(s, chunk);
    MakeValid(t);
  }

  lemma MakeValid(t: Snap)
    requires Shape(t) && t.base <= t.marker <= |t.full| && Books(t)
    requires Faithful(t.d, t.thinking, t.full, PhaseOf(t), t.buf, t.final)
    ensures Valid(t)
  {
    hide Shape, Books, Faithful, PhaseOf;
  }

  /** Once the input is over, only the empty continuation is left. */
  lemma FinalStep(s: Snap)
    requires !s.final
    requires Valid(s)
    ensures Valid(s.(final := true)) && Tracked(s.(final := true))
  {
    FinalTracked(s.(final := true));
    hide Tracked, Valid, Meaning, Shape, Consumed, WellFormed, XmlWellFormed, DecideAll, OpenBooks, FlatBooks, Shows;
    ValidFacts(s);
    var t := s.(final := true);
    FinalBooks(s);
    FaithfulAtEnd(s.d, s.thinking, s.full, PhaseOf(s), s.buf, s.final);
    assert PhaseOf(t) == PhaseOf(s);
    MakeValid(t);
  }

  lemma FinalBooks(s: Snap)
    requires Shape(s) && Books(s)
    ensures var t := s.(final := true); Shape(t) && Books(t) && Consumed(t) == Consumed(s)
  {
    hide ContentOf, ToolsOf, WellFormed, XmlWellFormed, BlockEvents, ParamEvents, Collect, HasDuplicate,
         XmlParamEvents, StanzaAt, HasStanza, Unambiguous, Shows;
    SameText(s.(final := true), s);
  }
}
