/** The decoder's steps outside calls (dsml/stream.go): plain content, reasoning, raw text and the end of a block. */
module EndHandlers {
  import opened Text
  import opened ToolText
  import opened Markup
  import opened Calls
  import opened Grammar
  import opened Phases
  import opened Transitions
  import opened Decode
  import opened DecoderState
  import opened DecoderSteps

  /** A step whose phases agree keeps the invariant. */
  lemma PhaseStep(s: Snap, t: Snap)
    requires t.d == s.d && t.thinking == s.thinking && t.full == s.full && t.final == s.final
    requires Shape(s) && s.base <= s.marker <= |s.full| && Shape(t) && t.base <= t.marker <= |t.full|
    requires Agree(s.d, PhaseOf(s), s.buf, PhaseOf(t), t.buf, s.final)
    requires Books(t)
    requires Valid(s)
    ensures Valid(t)
  {
    hide Agree, Books, PhaseOf, Shape, Faithful;
    StaysFaithful(s.d, s.thinking, s.full, PhaseOf(s), s.buf, PhaseOf(t), t.buf, s.final);
  }

  /** The step is one the loop makes: it shows `events`, and consumes input or moves the state on. */
  lemma PhaseMove(s: Snap, t: Snap, events: seq<Event>)
    requires t.d == s.d && t.thinking == s.thinking && t.full == s.full && t.final == s.final &&
             t.emitted == s.emitted + events
    requires s.state != StThinking && t.state != StThinking && NoReasoning(events)
    requires |t.buf| < |s.buf| || (t.buf == s.buf && Rank(t.state) < Rank(s.state))
    requires Shape(s) && s.base <= s.marker <= |s.full| && Shape(t) && t.base <= t.marker <= |t.full|
    requires Agree(s.d, PhaseOf(s), s.buf, PhaseOf(t), t.buf, s.final)
    requires Books(t) && (Tracked(s) ==> Tracked(t))
    requires Valid(s)
    ensures Stepped(s, t, events)
  {
    hide Agree, Books, PhaseOf, Shape, Valid, Stepped, NoReasoning, Tracked;
    PhaseStep(s, t);
    Moves(s, t, events);
  }

  lemma ValidFacts(s: Snap)
    requires Valid(s)
    ensures Shape(s) && s.base <= s.marker <= |s.full| && Books(s)
    ensures Faithful(s.d, s.thinking, s.full, PhaseOf(s), s.buf, s.final)
  {
    hide Shape, Books, PhaseOf, Faithful;
  }

  lemma FlatFacts(s: Snap)
    requires FlatBooks(s)
    ensures s.read == [] && s.pending == [] && s.calls == [] && !s.closed && !s.implicit
  {}

  // ----- tracking the reply -----

  /** Nothing is to be known of the reply once it is over, nor in the XML dialects; and raw text stays raw. */
  lemma StaysTracked(s: Snap, t: Snap)
    requires t.d == s.d && t.thinking == s.thinking && t.full == s.full && t.final == s.final && t.base == s.base
    requires s.state != StThinking
    requires t.state == StDone || (t.state == StRaw && s.state == StRaw) ||
             (IsOpenState(t.state) && !IsBlockState(t.state))
    ensures Tracked(s) ==> Tracked(t)
  {
    hide Index, ReplyCloses, ScanFrom, ScanOpened, MarkerAt, NextMarker;
    if Tracked(s) && !s.final {
      forall ext: string ensures TracksAt(t, From(t.full, t.base) + ext, ext) {
        assert TracksAt(s, From(s.full, s.base) + ext, ext);
      }
    }
  }

  /** Plain text that is shown held no marker. */
  lemma EmittedTracked(s: Snap, n: nat)
    requires n <= |s.buf| && Shape(s) && s.state == StContent && MarkerFree(s.d, s.buf, n, s.final)
    ensures Tracked(s) ==> Tracked(Emitted(s, n))
  {
    hide Unambiguous, Index, MarkerAt, Consumed, Shown, MarkerFree, WellFormed;
    var t := Emitted(s, n);
    MoveConsumes(s, n);
    SameText(t, Move(s, n));
    if Tracked(s) && !s.final {
      forall ext: string ensures TracksAt(t, From(t.full, t.base) + ext, ext) {
        assert TracksAt(s, From(s.full, s.base) + ext, ext);
        ReplyIs(s, ext);
        StillPlain(s.d, Consumed(s), s.buf, n, ext, s.final);
      }
    }
  }

  /** The reply is what was consumed of it and the buffer. */
  lemma ReplyIs(s: Snap, ext: string)
    requires Shape(s)
    ensures From(s.full, s.base) + ext == Consumed(s) + (s.buf + ext)
  {
    hide Unambiguous, WellFormed;
    var k := |s.full| - |s.buf|;
    assert s.full[s.base..] == s.full[s.base..k] + s.full[k..];
  }

  lemma StillPlain(d: Reader, text: string, buf: string, n: nat, ext: string, final: bool)
    requires n <= |buf| && MarkerFree(d, buf, n, final) && (final ==> ext == "")
    requires forall j :: 0 <= j < |text| ==> MarkerAt(d, (text + (buf + ext))[j..]) == NoMarker
    ensures forall j :: 0 <= j < |text| + n ==> MarkerAt(d, (text + (buf + ext))[j..]) == NoMarker
  {
    hide MarkerAt;
    forall j | |text| <= j < |text| + n ensures MarkerAt(d, (text + (buf + ext))[j..]) == NoMarker {
      assert (text + (buf + ext))[j..] == (buf + ext)[j - |text|..];
    }
  }

  /** A block that opens where plain text ends is tracked from its first tag on. */
  lemma OpenedTracked(s: Snap, n: nat, syn: Syntax, implicit: bool)
    requires Shape(s) && s.state == StContent && FirstMarker(s.d, s.buf, n) && s.read == []
    requires MarkerAt(s.d, From(s.buf, n)) == Opens(syn, implicit)
    ensures Tracked(s) ==> Tracked(BlockOpened(s, n, RawStart(s.buf, n), syn, implicit))
  {
    hide Index, Tracked, TracksAt, Consumed, Shown, WellFormed, FirstMarker, RawStart, Position, MarkerAt, Shape;
    FirstMarkerFacts(s.d, s.buf, n);
    assert !s.final && Tracked(s) ==> Tracked(BlockOpened(s, n, RawStart(s.buf, n), syn, implicit)) by {
      if !s.final && Tracked(s) {
        forall ext: string
          ensures TracksAt(s, From(s.full, s.base) + ext, ext) ==>
                  TracksAt(BlockOpened(s, n, RawStart(s.buf, n), syn, implicit), From(s.full, s.base) + ext, ext)
        {
          OpenedTracks(s, n, syn, implicit, ext);
        }
        TrackedOn(s, BlockOpened(s, n, RawStart(s.buf, n), syn, implicit));
      }
    }
    FinalTracked(BlockOpened(s, n, RawStart(s.buf, n), syn, implicit));
  }

  lemma TrackedOn(s: Snap, t: Snap)
    requires t.thinking == s.thinking && t.full == s.full && t.final == s.final && t.base == s.base
    requires s.state != StThinking && Tracked(s)
    requires forall ext: string ::
             TracksAt(s, From(s.full, s.base) + ext, ext) ==> TracksAt(t, From(s.full, s.base) + ext, ext)
    ensures Tracked(t)
  {
    hide TracksAt, Index;
  }

  lemma FinalTracked(t: Snap)
    ensures t.final ==> Tracked(t)
  {
    hide TracksAt;
  }

  lemma OpenedTracks(s: Snap, n: nat, syn: Syntax, implicit: bool, ext: string)
    requires Shape(s) && s.state == StContent && FirstMarker(s.d, s.buf, n) && s.read == []
    requires MarkerAt(s.d, From(s.buf, n)) == Opens(syn, implicit)
    ensures n < |s.buf|
    ensures TracksAt(s, From(s.full, s.base) + ext, ext) ==>
              TracksAt(BlockOpened(s, n, RawStart(s.buf, n), syn, implicit), From(s.full, s.base) + ext, ext)
  {
    hide Index, MarkerAt, NextMarker, Consumed, Shown, WellFormed, FirstMarker, ScanBlock, RawStart, Position;
    FirstMarkerFacts(s.d, s.buf, n);
    if TracksAt(s, From(s.full, s.base) + ext, ext) {
      var t := BlockOpened(s, n, RawStart(s.buf, n), syn, implicit);
      ReplyIs(s, ext);
      OpenedFirst(s.d, Consumed(s), s.buf, ext, n, syn, implicit);
      OpenedScan(s.d, s.buf, ext, n, syn, implicit);
      assert t.buf + ext == s.buf[RawStart(s.buf, n)..] + ext;
      assert SpotOf(t) == if implicit then AtBlock(OpenedBlock(s.d, syn, implicit), [])
             else AtOpening(OpenedBlock(s.d, syn, implicit));
    }
  }

  /** The first marker of the reply, behind plain text, is the one found. */
  lemma OpenedFirst(d: Reader, text: string, buf: string, ext: string, n: nat, syn: Syntax, implicit: bool)
    requires Unambiguous(d.table) && FirstMarker(d, buf, n) && MarkerAt(d, From(buf, n)) == Opens(syn, implicit)
    requires forall j :: 0 <= j < |text| ==> MarkerAt(d, (text + (buf + ext))[j..]) == NoMarker
    ensures n < |buf|
    ensures var r := text + (buf + ext);
            && NextMarker(d, r) == |text| + n && |text| + n < |r| && r[|text| + n..] == buf[n..] + ext
            && MarkerAt(d, r[|text| + n..]) == Opens(syn, implicit)
  {
    hide MarkerAt, NextMarker;
    FirstMarkerFacts(d, buf, n);
    DropAppend(buf, ext, n);
    OpenerPersists(d, buf[n..], ext, syn, implicit);
    FirstMarkerIsFinal(d, buf, ext, n);
    NextMarkerShifts(d, text, buf + ext);
    assert (text + (buf + ext))[|text| + n..] == (buf + ext)[n..];
  }

  // ----- emitting plain content -----

  /** A flat state after `n` bytes of the buffer were shown. */
  function Emitted(s: Snap, n: nat): Snap {
    Move(s, n).(emitted := Shown(s, Until(s.buf, n)))
  }

  lemma EmittedBooks(s: Snap, n: nat)
    requires n <= |s.buf| && Shape(s) && FlatBooks(s) && (s.state == StContent || s.state == StRaw)
    ensures var t := Emitted(s, n);
            && Shape(t) && FlatBooks(t) && Consumed(t) == Consumed(s) + Until(s.buf, n)
            && ContentOf(t.emitted) == Consumed(t) && ToolsOf(t.emitted) == []
  {
    hide ContentOf, ToolsOf, Unambiguous, Consumed, WellFormed;
    MoveConsumes(s, n);
    ShownIs(s, s.buf[..n]);
    assert Consumed(Emitted(s, n)) == Consumed(Move(s, n)) by {
      SameText(Emitted(s, n), Move(s, n));
    }
  }

  lemma SameText(s: Snap, t: Snap)
    requires s.d == t.d && s.thinking == t.thinking && s.full == t.full && s.buf == t.buf && s.base == t.base &&
             Shape(t)
    ensures Shape(s) && Consumed(s) == Consumed(t)
  {
    hide Unambiguous;
  }

  /** Nothing in the first `n` bytes can begin a marker, whatever follows. */
  ghost predicate MarkerFree(d: Reader, buf: string, n: nat, final: bool)
    requires n <= |buf|
  {
    forall ext: string, j :: (final ==> ext == "") && 0 <= j < n ==> MarkerAt(d, (buf + ext)[j..]) == NoMarker
  }

  lemma SettledIsMarkerFree(d: Reader, buf: string, n: nat, final: bool)
    requires n <= |buf| && forall j :: 0 <= j < n ==> MarkerAt(d, buf[j..]) == NoMarker
    requires final || forall j :: 0 <= j < n ==> Settled(buf, j)
    ensures MarkerFree(d, buf, n, final)
  {
    hide MarkerAt, Settled;
    forall ext: string, j | (final ==> ext == "") && 0 <= j < n ensures MarkerAt(d, (buf + ext)[j..]) == NoMarker {
      if final {
        assert buf + ext == buf;
      } else {
        SettledTextIsContent(d, buf, ext, j);
      }
    }
  }

  lemma ContentEmitsStep(s: Snap, n: nat)
    requires 0 < n <= |s.buf| && MarkerFree(s.d, s.buf, n, s.final) && s.state == StContent
    requires Valid(s)
    ensures Stepped(s, Emitted(s, n), ContentEvents(Until(s.buf, n)))
  {
    ValidFacts(s);
    hide Tracked, Valid, Stepped, Meaning, Shape, FlatBooks, Consumed, MarkerAt, ContentEvents;
    var t := Emitted(s, n);
    EmittedBooks(s, n);
    forall ext: string | s.final ==> ext == ""
      ensures Meaning(s.d, PhaseOf(s), s.buf + ext) == Meaning(s.d, PhaseOf(t), t.buf + ext)
    {
      EmitSettled(s.d, Consumed(s), s.buf, ext, n);
    }
    ContentIsNoReasoning(Until(s.buf, n));
    EmittedTracked(s, n);
    PhaseMove(s, t, ContentEvents(Until(s.buf, n)));
  }

  /** The end-of-sentence token at `n`: everything before it is shown. */
  function Stopped(s: Snap, n: nat, text: string): Snap {
    Move(s, n + |EOS|).(emitted := Shown(s, Until(s.buf, n)), state := StDone, outcome := Verdict(text, None))
  }

  lemma StoppedShows(s: Snap, n: nat)
    requires n + |EOS| <= |s.buf| && Shape(s) && FlatBooks(s) && (s.state == StContent || s.state == StRaw)
    ensures var t := Stopped(s, n, Consumed(s) + Until(s.buf, n)); Shape(t) && Books(t)
  {
    hide ContentOf, ToolsOf, Unambiguous, Consumed, WellFormed, EOS;
    var text := Consumed(s) + s.buf[..n];
    MoveConsumes(s, n + |EOS|);
    ShownIs(s, s.buf[..n]);
    SameText(Stopped(s, n, text), Move(s, n + |EOS|));
  }

  lemma ContentStopsStep(s: Snap, n: nat, text: string)
    requires Shape(s) && n + |EOS| <= |s.buf| && text == Consumed(s) + Until(s.buf, n)
    requires FirstMarker(s.d, s.buf, n) && EOS <= From(s.buf, n) && s.state == StContent
    requires Valid(s)
    ensures Stepped(s, Stopped(s, n, text), ContentEvents(Until(s.buf, n)))
  {
    hide Tracked, Valid, Stepped, Meaning, Shape, FlatBooks, Consumed, FirstMarker, ContentEvents, WellFormed,
         XmlWellFormed;
    ValidFacts(s);
    var t := Stopped(s, n, text);
    StoppedShows(s, n);
    assert Agree(s.d, PhaseOf(s), s.buf, PhaseOf(t), t.buf, s.final) by {
      forall ext: string ensures Meaning(s.d, PhaseOf(s), s.buf + ext) == Meaning(s.d, PhaseOf(t), t.buf + ext) {
        ContentStops(s.d, Consumed(s), s.buf, ext, n);
        DoneMeans(s.d, t.outcome, t.buf + ext);
      }
    }
    ContentIsNoReasoning(Until(s.buf, n));
    StaysTracked(s, t);
    PhaseMove(s, t, ContentEvents(Until(s.buf, n)));
  }

  lemma DoneMeans(d: Reader, v: Verdict, rest: string)
    ensures Meaning(d, Done(v), rest) == v
  {}

  // ----- opening a block -----

  function BlockOpened(s: Snap, n: nat, raw: nat, syn: Syntax, implicit: bool): Snap {
    Move(s, raw).(emitted := Shown(s, Until(s.buf, raw)), syntax := syn, implicit := implicit, seenOp := implicit,
                  rawStart := Position(s, raw), marker := Position(s, n), state := StInToolCalls)
  }

  /** The absolute offset of a buffer position. */
  function Position(s: Snap, n: nat): nat {
    if |s.buf| <= |s.full| then |s.full| - |s.buf| + n else 0
  }

  lemma BlockOpenedText(s: Snap, n: nat, syn: Syntax, implicit: bool)
    requires n <= |s.buf| && Shape(s) && FlatBooks(s) && s.state == StContent
    ensures var t := BlockOpened(s, n, RawStart(s.buf, n), syn, implicit);
            Shape(t) && Consumed(t) == Consumed(s) + s.buf[..RawStart(s.buf, n)] && ShownToBlock(t)
            && t.base <= t.marker <= |t.full| && Before(t) == Consumed(s) + Until(s.buf, n)
  {
    hide ContentOf, ToolsOf, Unambiguous, WellFormed, AtOpeningTag, BlockEvents, XmlWellFormed, RawStart;
    var raw := RawStart(s.buf, n);
    MoveConsumes(s, raw);
    ShownIs(s, s.buf[..raw]);
    SameText(BlockOpened(s, n, raw, syn, implicit), Move(s, raw));
    OpenedText(s, n);
    OpenedText(s, raw);
  }

  lemma BlockOpenedBooks(s: Snap, n: nat, syn: Syntax, implicit: bool)
    requires n < |s.buf| && s.buf[n] == '<' && Shape(s) && FlatBooks(s) && s.state == StContent && !IsXml(s.d.dialect)
    requires implicit || syn.toolStart <= From(s.buf, n)
    ensures var t := BlockOpened(s, n, RawStart(s.buf, n), syn, implicit); ShownToBlock(t) ==> OpenBooks(t)
  {
    hide ContentOf, ToolsOf, Unambiguous, WellFormed, AtOpeningTag, BlockEvents, XmlWellFormed, RawStart, Consumed,
         ShownToBlock, OpenBooks;
    OpenedBreaks(s, n);
    OpenedTag(syn, s.buf, n, implicit);
    var t := BlockOpened(s, n, RawStart(s.buf, n), syn, implicit);
    if ShownToBlock(t) {
      OpenedIsOpen(t);
    }
  }

  lemma OpenedIsOpen(t: Snap)
    requires ShownToBlock(t) && t.read == [] && t.calls == [] && t.pending == [] && !t.closed &&
             t.state == StInToolCalls
    requires t.marker == t.rawStart ||
             (t.marker == t.rawStart + 2 <= |t.full| && Between(t.full, t.rawStart, t.marker) == "\n\n")
    requires !IsXml(t.d.dialect) && t.seenOp == t.implicit && (!t.implicit ==> AtOpeningTag(t.syntax, t.buf))
    ensures OpenBooks(t)
  {
    hide ContentOf, ToolsOf, Unambiguous, WellFormed, AtOpeningTag, ShownToBlock;
    NoEventsYet(t.d);
  }

  lemma NoEventsYet(d: Reader)
    ensures BlockEvents(d.json, IsXml(d.dialect), []) == []
  {}

  lemma OpenedText(s: Snap, n: nat)
    requires n <= |s.buf| && Shape(s)
    ensures var k := Position(s, n);
            s.base <= k <= |s.full| && Between(s.full, s.base, k) == Consumed(s) + Until(s.buf, n)
  {
    hide Unambiguous, WellFormed;
    MoveConsumes(s, n);
  }

  lemma OpenedBreaks(s: Snap, n: nat)
    requires n <= |s.buf| && Shape(s)
    ensures var r, k := Position(s, RawStart(s.buf, n)), Position(s, n);
            r == k || (k == r + 2 <= |s.full| && Between(s.full, r, k) == "\n\n")
  {
    hide Unambiguous, WellFormed;
    if RawStart(s.buf, n) != n {
      assert s.full[Position(s, n - 2)..Position(s, n)] == s.buf[n - 2..n];
    }
  }

  lemma OpenedTag(syn: Syntax, buf: string, n: nat, implicit: bool)
    requires n < |buf| && buf[n] == '<' && (implicit || syn.toolStart <= From(buf, n))
    ensures !implicit ==> AtOpeningTag(syn, buf[RawStart(buf, n)..])
  {
    var raw := RawStart(buf, n);
    if raw == n {
      assert buf[raw..][0] == '<';
    } else {
      assert buf[raw..][..2] == buf[n - 2..n];
      assert buf[raw..][2..] == buf[n..];
    }
  }

  lemma ContentOpensStep(s: Snap, n: nat, syn: Syntax, implicit: bool)
    requires FirstMarker(s.d, s.buf, n) && MarkerAt(s.d, From(s.buf, n)) == Opens(syn, implicit)
    requires s.state == StContent && !IsXml(s.d.dialect)
    requires Valid(s)
    ensures Stepped(s, BlockOpened(s, n, RawStart(s.buf, n), syn, implicit),
                    ContentEvents(Until(s.buf, RawStart(s.buf, n))))
  {
    hide ScanBlock, WellFormed, XmlWellFormed, SkipSpace, Index, Unambiguous, SpotsAgree, BlockEvents;
    ValidFacts(s);
    hide Tracked, Valid, Stepped, Meaning, FlatBooks, Consumed, FirstMarker, ContentEvents, MarkerAt, OpenBooks;
    var t := BlockOpened(s, n, RawStart(s.buf, n), syn, implicit);
    var text := Consumed(s);
    FlatFacts(s);
    FirstMarkerFacts(s.d, s.buf, n);
    assert s.buf[n..] + "" == s.buf[n..];
    OpenerPersists(s.d, s.buf[n..], "", syn, implicit);
    BlockOpenedText(s, n, syn, implicit);
    BlockOpenedBooks(s, n, syn, implicit);
    OpenedPhase(s, n, syn, implicit);
    forall ext: string ensures Meaning(s.d, PhaseOf(s), s.buf + ext) == Meaning(s.d, PhaseOf(t), t.buf + ext) {
      ContentOpens(s.d, text, s.buf, ext, n, syn, implicit);
    }
    ContentIsNoReasoning(Until(s.buf, RawStart(s.buf, n)));
    OpenedTracked(s, n, syn, implicit);
    PhaseMove(s, t, ContentEvents(Until(s.buf, RawStart(s.buf, n))));
  }

  lemma FirstMarkerFacts(d: Reader, buf: string, n: nat)
    requires FirstMarker(d, buf, n)
    ensures n < |buf| && buf[n] == '<'
  {}

  lemma OpenedPhase(s: Snap, n: nat, syn: Syntax, implicit: bool)
    requires n <= |s.buf| && Shape(s)
    requires var t := BlockOpened(s, n, RawStart(s.buf, n), syn, implicit);
             Shape(t) && Consumed(t) == Consumed(s) + s.buf[..RawStart(s.buf, n)]
             && t.base <= t.marker <= |t.full| && Before(t) == Consumed(s) + Until(s.buf, n)
    requires s.read == []
    ensures PhaseOf(BlockOpened(s, n, RawStart(s.buf, n), syn, implicit)) ==
            Opened(s.d, Consumed(s), s.buf, n, syn, implicit)
  {
    hide Shape, Consumed, Shown;
  }

  // ----- opening a call of the XML dialects -----

  function CallOpened(s: Snap, n: nat): Snap {
    Move(s, n + |s.d.xml.callStart|).(emitted := Shown(s, Until(s.buf, n)), rawStart := Position(s, n),
                                      marker := Position(s, n),
                                      state := if s.d.dialect == Glm then StGlmName else StQwenFn)
  }

  lemma CallOpenedBooks(s: Snap, n: nat)
    requires FlatBooks(s) && s.state == StContent && IsXml(s.d.dialect)
    ensures var t := CallOpened(s, n); ShownToBlock(t) ==> OpenBooks(t)
  {
    hide ContentOf, ToolsOf, WellFormed, XmlWellFormed, Consumed, ShownToBlock;
    NoEventsYet(s.d);
  }

  lemma ContentOpensXmlStep(s: Snap, n: nat, k: nat)
    requires k == n + |s.d.xml.callStart| <= |s.buf| && FirstMarker(s.d, s.buf, n) &&
             s.d.xml.callStart <= From(s.buf, n)
    requires s.state == StContent && IsXml(s.d.dialect)
    requires Valid(s)
    ensures Stepped(s, CallOpened(s, n), ContentEvents(Until(s.buf, n)))
  {
    hide Tracked, Valid, Stepped, Meaning, FlatBooks, Consumed, FirstMarker, ContentEvents, OpenBooks, WellFormed,
         XmlWellFormed;
    ValidFacts(s);
    XmlTagsNonEmpty(s.d.xml);
    var t := CallOpened(s, n);
    CallOpenedText(s, n, k);
    CallOpenedBooks(s, n);
    FlatFacts(s);
    CallOpenedAgrees(s, t, n, k);
    ContentIsNoReasoning(Until(s.buf, n));
    StaysTracked(s, t);
    PhaseMove(s, t, ContentEvents(Until(s.buf, n)));
  }

  lemma CallOpenedText(s: Snap, n: nat, k: nat)
    requires k == n + |s.d.xml.callStart| <= |s.buf| && Shape(s) && FlatBooks(s) && s.state == StContent
    ensures var t := CallOpened(s, n);
            Shape(t) && Consumed(t) == Consumed(s) + Until(s.buf, k) && ShownToBlock(t)
            && t.base <= t.marker <= |t.full| && Before(t) == Consumed(s) + Until(s.buf, n)
  {
    hide ContentOf, ToolsOf, Unambiguous, WellFormed, AtOpeningTag, BlockEvents, XmlWellFormed;
    MoveConsumes(s, k);
    ShownIs(s, s.buf[..n]);
    SameText(CallOpened(s, n), Move(s, k));
    OpenedText(s, n);
  }

  lemma CallOpenedAgrees(s: Snap, t: Snap, n: nat, k: nat)
    requires k == n + |s.d.xml.callStart| <= |s.buf| && FirstMarker(s.d, s.buf, n) &&
             s.d.xml.callStart <= From(s.buf, n)
    requires s.state == StContent && IsXml(s.d.dialect) && t == CallOpened(s, n) && s.read == [] && !s.implicit
    requires Shape(s) && s.base <= s.marker <= |s.full| && Shape(t) && t.base <= t.marker <= |t.full|
    requires Consumed(t) == Consumed(s) + Until(s.buf, k) && Before(t) == Consumed(s) + Until(s.buf, n)
    ensures Agree(s.d, PhaseOf(s), s.buf, PhaseOf(t), t.buf, s.final)
  {
    hide Meaning, Shape, Consumed, FirstMarker, WellFormed, XmlWellFormed, Shown;
    var spot := if s.d.dialect == Glm then AtGlmName([]) else AtQwenFn([]);
    assert PhaseOf(t) == InBlock(Consumed(s) + s.buf[..k], Consumed(s) + s.buf[..n], false, spot);
    forall ext: string ensures Meaning(s.d, PhaseOf(s), s.buf + ext) == Meaning(s.d, PhaseOf(t), t.buf + ext) {
      ContentOpensXml(s.d, Consumed(s), s.buf, ext, n, spot);
    }
  }

  // ----- raw text -----

  /** No end-of-sentence token can begin in the first `n` bytes. */
  ghost predicate EosFree(buf: string, n: nat, final: bool)
    requires n <= |buf|
  {
    forall ext: string, j :: (final ==> ext == "") && 0 <= j < n ==> !(EOS <= (buf + ext)[j..])
  }

  lemma SettledIsEosFree(buf: string, n: nat, final: bool)
    requires n <= |buf| && Index(buf, EOS) < 0
    requires final || forall j :: 0 <= j < n ==> Settled(buf, j)
    ensures EosFree(buf, n, final)
  {
    hide Settled, Index;
    EosIsOpener();
    IndexIsFirst(buf, EOS);
    forall ext: string, j | (final ==> ext == "") && 0 <= j < n ensures !(EOS <= (buf + ext)[j..]) {
      if final {
        assert buf + ext == buf;
      } else {
        OpenerStaysAbsent(buf, ext, j, EOS);
      }
    }
  }

  lemma RawEmitsStep(s: Snap, n: nat)
    requires 0 < n <= |s.buf| && EosFree(s.buf, n, s.final) && s.state == StRaw
    requires Valid(s)
    ensures Stepped(s, Emitted(s, n), ContentEvents(Until(s.buf, n)))
  {
    hide Tracked, Valid, Stepped, Meaning, Shape, FlatBooks, Consumed, ContentEvents, WellFormed, XmlWellFormed;
    ValidFacts(s);
    var t := Emitted(s, n);
    EmittedBooks(s, n);
    forall ext: string | s.final ==> ext == ""
      ensures Meaning(s.d, PhaseOf(s), s.buf + ext) == Meaning(s.d, PhaseOf(t), t.buf + ext)
    {
      RawEmits(s.d, Consumed(s), s.buf, ext, n);
    }
    ContentIsNoReasoning(Until(s.buf, n));
    StaysTracked(s, t);
    PhaseMove(s, t, ContentEvents(Until(s.buf, n)));
  }

  lemma RawStopsStep(s: Snap, n: nat, text: string)
    requires Shape(s) && Index(s.buf, EOS) == n && n + |EOS| <= |s.buf| && text == Consumed(s) + Until(s.buf, n) &&
             s.state == StRaw
    requires Valid(s)
    ensures Stepped(s, Stopped(s, n, text), ContentEvents(Until(s.buf, n)))
  {
    hide Tracked, Valid, Stepped, Meaning, Shape, FlatBooks, Consumed, ContentEvents, WellFormed, XmlWellFormed, Index;
    ValidFacts(s);
    var t := Stopped(s, n, text);
    StoppedShows(s, n);
    forall ext: string ensures Meaning(s.d, PhaseOf(s), s.buf + ext) == Meaning(s.d, PhaseOf(t), t.buf + ext) {
      RawStops(s.d, Consumed(s), s.buf, ext);
      DoneMeans(s.d, t.outcome, t.buf + ext);
    }
    ContentIsNoReasoning(Until(s.buf, n));
    StaysTracked(s, t);
    PhaseMove(s, t, ContentEvents(Until(s.buf, n)));
  }

  // ----- the end of a block -----

  lemma {:induction false} BlockEventsAreTools(json: Json, xml: bool, calls: seq<Call>)
    ensures forall i :: 0 <= i < |BlockEvents(json, xml, calls)| ==> IsToolEvent(BlockEvents(json, xml, calls)[i])
  {
    if calls != [] {
      var n := |calls| - 1;
      BlockEventsAreTools(json, xml, calls[..n]);
      assert var es := if xml then XmlCallEvents(json, n, calls[n]) else CallEvents(json, n, calls[n]);
             forall i :: 0 <= i < |es| ==> IsToolEvent(es[i]) by {
        ParamEventsAreTools(json, n, calls[n].params);
      }
    }
  }

  lemma {:induction false} ParamEventsAreTools(json: Json, n: nat, ps: seq<Param>)
    ensures forall i :: 0 <= i < |ParamEvents(json, n, ps)| ==> IsToolEvent(ParamEvents(json, n, ps)[i])
    ensures forall i :: 0 <= i < |XmlParamEvents(n, ps)| ==> IsToolEvent(XmlParamEvents(n, ps)[i])
  {
    if ps != [] {
      ParamEventsAreTools(json, n, ps[..|ps| - 1]);
    }
  }

  /** The accepted block's events are shown. */
  lemma BlockShown(s: Snap)
    requires OpenBooks(s) && !InCall(s.state) && s.base <= s.marker <= |s.full|
    ensures NoReasoning(s.pending)
    ensures Shows(s.d, s.emitted + s.pending, Verdict(Before(s), Some(s.read)))
  {
    hide ContentOf, ToolsOf, BlockEvents;
    BlockEventsAreTools(s.d.json, IsXml(s.d.dialect), s.read);
    ToolsAppend(s.emitted, s.pending);
    Adjacent(s.full, s.base, s.rawStart, s.marker);
    assert ToolsOf(s.emitted + s.pending) == [] + s.pending == s.pending;
    if s.marker == s.rawStart {
      assert s.full[s.rawStart..s.marker] == "";
    }
  }

  /** `completeToolBlock` at an end-of-sentence token `n` bytes on. */
  function Accepted(s: Snap, n: nat, before: string): Snap {
    Move(s, n).(emitted := s.emitted + s.pending, pending := [], calls := [], seenOp := false, implicit := false,
                state := StDone, outcome := Verdict(before, Some(s.read)), read := [])
  }

  lemma AcceptedIs(s: Snap, n: nat, before: string)
    requires 0 < n <= |s.buf|
    ensures var t := Accepted(s, n, before);
            && t.d == s.d && t.thinking == s.thinking && t.full == s.full && t.final == s.final &&
               t.emitted == s.emitted + s.pending
            && t.state == StDone && |t.buf| < |s.buf| && t.base == s.base && t.marker == s.marker
            && t.outcome == Verdict(before, Some(s.read))
  {}

  lemma AcceptedBooks(s: Snap, n: nat, before: string)
    requires n <= |s.buf| && Shape(s) && OpenBooks(s) && !InCall(s.state) && s.base <= s.marker <= |s.full|
    requires before == Before(s)
    ensures var t := Accepted(s, n, before); Shape(t) && Books(t) && NoReasoning(s.pending)
  {
    hide OpenBooks, Unambiguous, WellFormed, XmlWellFormed, Shows, NoReasoning;
    MoveConsumes(s, n);
    BlockShown(s);
  }

  lemma SkipAfterBlock(s: Snap)
    requires s.state == StCheckingToolBlockEnd
    requires Valid(s)
    ensures Valid(Move(s, Spaces(s.buf))) && (Tracked(s) ==> Tracked(Move(s, Spaces(s.buf))))
  {
    EndTracked(s);
    hide Tracked, Valid, Meaning, Shape, OpenBooks, Consumed, WellFormed, XmlWellFormed, SkipSpace, Spaces;
    ValidFacts(s);
    var n := Spaces(s.buf);
    SpacesAre(s.buf);
    var t := Move(s, n);
    MoveConsumes(s, n);
    SkipKeepsBooks(s);
    forall ext: string ensures Meaning(s.d, PhaseOf(s), s.buf + ext) == Meaning(s.d, PhaseOf(t), t.buf + ext) {
      EndSpaces(s.d, Consumed(s), s.full[s.base..s.marker], s.implicit, s.read, s.buf, ext);
    }
    PhaseStep(s, t);
  }

  /** White space behind a closed block is passed over. */
  lemma EndTracked(s: Snap)
    requires s.state == StCheckingToolBlockEnd
    requires Valid(s)
    ensures Tracked(s) ==> Tracked(Move(s, Spaces(s.buf)))
  {
    hide Index, Tracked, TracksAt, Valid;
    var t := Move(s, Spaces(s.buf));
    FinalTracked(t);
    if s.implicit {
      ImplicitUnskipped(s);
    } else if Tracked(s) {
      forall ext: string
        ensures TracksAt(s, From(s.full, s.base) + ext, ext) ==> TracksAt(t, From(s.full, s.base) + ext, ext)
      {
        EndTracks(s, ext);
      }
      TrackedOn(s, t);
    }
  }

  lemma EndTracks(s: Snap, ext: string)
    requires s.state == StCheckingToolBlockEnd && !s.implicit
    ensures var t := Move(s, Spaces(s.buf));
            TracksAt(s, From(s.full, s.base) + ext, ext) ==> TracksAt(t, From(s.full, s.base) + ext, ext)
  {
    hide MarkerAt, NextMarker, ScanOpened, SkipSpace, Classify;
    SpacesAre(s.buf);
    SkipTwice(s.buf, ext);
  }

  lemma SkipTwice(b: string, ext: string)
    ensures SkipSpace(SkipSpace(b) + ext) == SkipSpace(b + ext)
  {
    SkipSpaceExtends(b, ext);
    SkipSpaceIdempotent(b + ext);
    if SkipSpace(b) == "" {
      assert "" + ext == ext;
    } else {
      SkipSpaceIdempotent(b);
      SkipSpaceExtends(SkipSpace(b), ext);
    }
  }

  lemma ImplicitUnskipped(s: Snap)
    requires s.state == StCheckingToolBlockEnd && s.implicit
    requires Valid(s)
    ensures Move(s, Spaces(s.buf)) == s
  {
    hide WellFormed, XmlWellFormed, BlockEvents, ContentOf, ToolsOf, Faithful, ShownToBlock, CallSoFar;
    assert SkipSpace(s.buf) == s.buf && s.buf[0..] == s.buf;
  }

  lemma SkipKeepsBooks(s: Snap)
    requires s.state == StCheckingToolBlockEnd && OpenBooks(s)
    ensures OpenBooks(Move(s, Spaces(s.buf))) && !IsXml(s.d.dialect)
  {
    hide WellFormed, XmlWellFormed, BlockEvents, ContentOf, ToolsOf;
  }

  lemma AfterBlockStopsStep(s: Snap, before: string)
    requires s.state == StCheckingToolBlockEnd && EOS <= s.buf && s.base <= s.marker <= |s.full| &&
             before == Before(s)
    requires Valid(s)
    ensures Stepped(s, Accepted(s, |EOS|, before), s.pending)
  {
    hide Tracked, Valid, Stepped, Meaning, Shape, OpenBooks, Consumed, WellFormed, XmlWellFormed;
    ValidFacts(s);
    var t := Accepted(s, |EOS|, before);
    AcceptedBooks(s, |EOS|, before);
    AfterBlockStopAgrees(s, t);
    StaysTracked(s, t);
    PhaseMove(s, t, s.pending);
  }

  lemma AfterBlockStopAgrees(s: Snap, t: Snap)
    requires s.state == StCheckingToolBlockEnd && EOS <= s.buf && t.state == StDone
    requires Shape(s) && s.base <= s.marker <= |s.full| && Shape(t) && t.base <= t.marker <= |t.full|
    requires t.outcome == Verdict(Before(s), Some(s.read))
    ensures Agree(s.d, PhaseOf(s), s.buf, PhaseOf(t), t.buf, s.final)
  {
    hide Meaning, Shape, Consumed, WellFormed, XmlWellFormed;
    forall ext: string ensures Meaning(s.d, PhaseOf(s), s.buf + ext) == Meaning(s.d, PhaseOf(t), t.buf + ext) {
      EndStops(s.d, Consumed(s), s.full[s.base..s.marker], s.implicit, s.read, s.buf, ext);
      DoneMeans(s.d, t.outcome, t.buf + ext);
    }
  }

  lemma AfterBlockRejectsStep(s: Snap)
    requires s.state == StCheckingToolBlockEnd && s.buf != "" && !IsAsciiSpace(s.buf[0])
    requires !(EOS <= s.buf) && (s.final || !Partial(s.buf, EOS))
    requires Valid(s)
    ensures Rejects(s, 0)
  {
    hide Valid, Rejects, Agree, Shape, OpenBooks, PhaseOf, Consumed, WellFormed, XmlWellFormed, Partial, IsAsciiSpace;
    ValidFacts(s);
    AfterBlockRejectAgrees(s);
    AfterBlockRejectTracked(s);
    RawHere(s);
  }

  lemma AfterBlockRejectTracked(s: Snap)
    requires s.state == StCheckingToolBlockEnd && s.buf != "" && !IsAsciiSpace(s.buf[0])
    requires !(EOS <= s.buf) && (s.final || !Partial(s.buf, EOS)) && OpenBooks(s)
    ensures Tracked(s) ==> Tracked(RawOf(s))
  {
    hide Tracked, Index, Classify, WellFormed, XmlWellFormed, Shown, BlockEvents, CallSoFar;
    if !s.final {
      forall ext: string ensures !ClosedBy(s.syntax, s.implicit, ScanFrom(s.d, SpotOf(s), s.buf + ext)) {
        NeitherSpaceNorEos(s.buf, ext);
        assert ScanFrom(s.d, SpotOf(s), s.buf + ext) == Closed(s.read, s.buf + ext);
      }
    }
    RawTracked(s, RawOf(s));
  }

  lemma NeitherSpaceNorEos(buf: string, ext: string)
    requires buf != "" && !IsAsciiSpace(buf[0]) && !(EOS <= buf) && !Partial(buf, EOS)
    ensures SkipSpace(buf + ext) == buf + ext && !Partial(buf + ext, EOS)
  {
    assert (buf + ext)[0] == buf[0];
    StaysUnpartial(buf, EOS, ext);
  }

  lemma AfterBlockRejectAgrees(s: Snap)
    requires s.state == StCheckingToolBlockEnd && s.buf != "" && !IsAsciiSpace(s.buf[0])
    requires !(EOS <= s.buf) && (s.final || !Partial(s.buf, EOS))
    requires Shape(s) && s.base <= s.marker <= |s.full| && OpenBooks(s)
    ensures Agree(s.d, PhaseOf(s), s.buf, Raw(Consumed(s)), s.buf, s.final)
  {
    assert PhaseOf(s) == InBlock(Consumed(s), s.full[s.base..s.marker], s.implicit, AtEnd(s.read)) by {
      hide Shape, Consumed;
    }
    hide Meaning, Shape, OpenBooks, Consumed, WellFormed, XmlWellFormed, Partial, IsAsciiSpace, PhaseOf;
    SkipKeepsBooks(s);
    forall ext: string | s.final ==> ext == ""
      ensures Meaning(s.d, PhaseOf(s), s.buf + ext) == Meaning(s.d, Raw(Consumed(s)), s.buf + ext)
    {
      // Text behind a closed block is neither a space nor the end-of-sentence token, whatever follows.
      assert Meaning(s.d, InBlock(Consumed(s), s.full[s.base..s.marker], s.implicit, AtEnd(s.read)), s.buf + ext) ==
             Meaning(s.d, Raw(Consumed(s)), s.buf + ext) by {
        hide SkipSpace;
        assert SkipSpace(s.buf + ext) == s.buf + ext && s.buf + ext != "" by {
          assert (s.buf + ext)[0] == s.buf[0];
        }
        assert !(EOS <= s.buf + ext) by {
          if s.final {
            assert s.buf + ext == s.buf;
          } else {
            NotPartialIsFinal(s.buf, EOS, ext);
          }
        }
        EndRejects(s.d, Consumed(s), s.full[s.base..s.marker], s.implicit, s.read, s.buf + ext);
      }
    }
  }

  lemma RawHere(s: Snap)
    requires IsOpenState(s.state) && Shape(s) && s.base <= s.marker <= |s.full|
    requires Agree(s.d, PhaseOf(s), s.buf, Raw(Consumed(s)), s.buf, s.final)
    requires Tracked(s) ==> Tracked(RawOf(s))
    requires Valid(s)
    ensures Rejects(s, 0)
  {
    hide Tracked, Valid, Agree, Shape, Consumed, PhaseOf, Rejects, WellFormed, XmlWellFormed;
    assert s.buf[0..] == s.buf;
    assert Consumed(s) + s.buf[..0] == Consumed(s);
    assert Move(s, 0) == s;
    RawKeeps(s, 0);
  }

  // ----- what begins first -----

  /** An opener found before any end-of-sentence token is the first marker. */
  lemma OpenerIsFirst(d: Reader, buf: string, f: Found)
    requires !IsXml(d.dialect) && f.start < |buf| && OpenAt(d.table, From(buf, f.start)) == Opens(f.syn, f.implicit)
    requires NoOpener(d.table, buf, 0, f.start) && f.rawStart == RawStart(buf, f.start)
    requires Index(buf, EOS) < 0 || f.rawStart < Index(buf, EOS)
    ensures FirstMarker(d, buf, f.start) && MarkerAt(d, From(buf, f.start)) == Opens(f.syn, f.implicit)
  {
    hide Index, OpenAt, EOS;
    var n := f.start;
    OpenerIsTag(d.table, buf[n..], f.syn, f.implicit);
    assert buf[n] == buf[n..][0];
    EosBehind(buf, n);
    forall j | 0 <= j < n ensures MarkerAt(d, buf[j..]) == NoMarker {
      assert OpenAt(d.table, buf[j..]) == NoMarker;
    }
  }

  /** The end-of-sentence token begins behind `n`: it is not among the line breaks, nor at the tag. */
  lemma EosBehind(buf: string, n: nat)
    requires n < |buf| && !(EOS <= buf[n..]) && (Index(buf, EOS) < 0 || RawStart(buf, n) < Index(buf, EOS))
    ensures forall j :: 0 <= j <= n ==> !(EOS <= buf[j..])
  {
    hide Index, EOS, IsName;
    IndexIsFirst(buf, EOS);
    var eos := Index(buf, EOS);
    if eos >= 0 {
      EosIsOpener();
      assert buf[eos] == buf[eos..][0] == '<';
      if RawStart(buf, n) != n {
        assert buf[n - 2..n][0] == buf[n - 2] && buf[n - 2..n][1] == buf[n - 1];
      }
    }
  }

  lemma OpenerIsTag(table: seq<Syntax>, s: string, syn: Syntax, implicit: bool)
    requires OpenAt(table, s) == Opens(syn, implicit)
    ensures s != "" && s[0] == '<' && !(EOS <= s)
  {
    hide ToolStartAt, InvokeAt, EOS;
    OpenAtTag(table, s);
    assert s + "" == s;
    if implicit {
      UnlikeEosIsFinal(s, syn.invokeStart, "");
    } else {
      UnlikeEosIsFinal(s, syn.toolStart, "");
    }
  }

  lemma OpenAtTag(table: seq<Syntax>, s: string)
    requires OpenAt(table, s).Opens?
    ensures var m := OpenAt(table, s); if m.implicit then m.syn.invokeStart <= s else m.syn.toolStart <= s
  {
    if ToolStartAt(table, s) != NoMarker {
      ToolStartTag(table, s);
    } else {
      InvokeTag(table, s);
    }
  }

  lemma {:induction false} ToolStartTag(table: seq<Syntax>, s: string)
    requires ToolStartAt(table, s) != NoMarker
    ensures ToolStartAt(table, s).Opens? && !ToolStartAt(table, s).implicit && ToolStartAt(table, s).syn.toolStart <= s
  {
    if !(table[0].toolStart <= s) {
      ToolStartTag(table[1..], s);
    }
  }

  lemma {:induction false} InvokeTag(table: seq<Syntax>, s: string)
    requires InvokeAt(table, s) != NoMarker
    ensures InvokeAt(table, s).Opens? && InvokeAt(table, s).implicit && InvokeAt(table, s).syn.invokeStart <= s
  {
    if !OpensTag(s, table[0].invokeStart) {
      InvokeTag(table[1..], s);
    }
  }

  /** No opener before the end-of-sentence token: it is the first marker. */
  lemma EosIsFirst(d: Reader, buf: string, n: nat)
    requires Index(buf, EOS) == n && n < |buf|
    requires if IsXml(d.dialect) then Index(buf, d.xml.callStart) < 0 || n <= Index(buf, d.xml.callStart)
             else NoOpener(d.table, buf, 0, n)
    ensures FirstMarker(d, buf, n) && EOS <= From(buf, n) && n + |EOS| <= |buf|
  {
    hide Index, ToolStartAt, InvokeAt, WellFormed, XmlWellFormed;
    IndexIsFirst(buf, EOS);
    IndexIsFirst(buf, d.xml.callStart);
    EosIsOpener();
    assert buf[n..][0] == buf[n];
  }

  lemma CallIsFirst(d: Reader, buf: string, n: nat)
    requires IsXml(d.dialect) && Index(buf, d.xml.callStart) == n && n < |buf| &&
             (Index(buf, EOS) < 0 || n < Index(buf, EOS))
    ensures FirstMarker(d, buf, n) && d.xml.callStart <= From(buf, n) && n + |d.xml.callStart| <= |buf|
  {
    hide Index, OpenAt, WellFormed, EOS;
    IndexIsFirst(buf, EOS);
    IndexIsFirst(buf, d.xml.callStart);
    XmlTagsNonEmpty(d.xml);
    assert buf[n..][0] == buf[n];
  }

  lemma NothingFirst(d: Reader, buf: string)
    requires Index(buf, EOS) < 0
    requires if IsXml(d.dialect) then Index(buf, d.xml.callStart) < 0 else NoOpener(d.table, buf, 0, |buf|)
    ensures forall j :: 0 <= j < |buf| ==> MarkerAt(d, buf[j..]) == NoMarker
  {
    hide Index, OpenAt;
    IndexIsFirst(buf, EOS);
    IndexIsFirst(buf, d.xml.callStart);
  }
}
