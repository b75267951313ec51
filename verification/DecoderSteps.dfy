/** Every transition of the incremental decoder keeps its invariant. */
module DecoderSteps {
  import opened Text
  import opened ToolText
  import opened Markup
  import opened Calls
  import opened Grammar
  import opened Phases
  import opened Transitions
  import opened Decode
  import opened DecoderState

  // ----- what a step keeps -----

  /** All input was seen and no handler can move: an unfinished block can only be content. */
  predicate Finished(s: Snap) {
    match s.state
    case StThinking | StContent | StRaw | StDone | StCheckingToolBlockEnd | StInInvokeBody => s.buf == ""
    case StInToolCalls => s.buf == "" && s.seenOp
    case StInInvoke | StInParameter | StInParameterValue => false
    case StGlmAfterCall | StQwenAfterCall => SkipSpace(s.buf) == ""
    case _ => ScanFrom(s.d, SpotOf(s), s.buf) == Bad("")
  }

  /** Waiting for input: plain text in which nothing begins is held back by no more than a marker's length, and in
      a block something is missing of what must come next. */
  predicate Waiting(s: Snap) {
    match s.state
    case StContent =>
      |s.buf| <= SAFETY_MARGIN + 2 && forall j :: 0 <= j < |s.buf| ==> MarkerAt(s.d, s.buf[j..]) == NoMarker
    case StRaw => |s.buf| <= SAFETY_MARGIN + 2 && !Contains(s.buf, EOS)
    case StThinking => |s.buf| <= |THINK_END| && !Contains(s.buf, THINK_END)
    case StDone => s.buf == ""
    case StInToolCalls => s.seenOp &&
        AwaitsTag(s.buf, s.syntax.invokeStart, if s.implicit then "" else s.syntax.toolEnd)
    case StInInvokeBody => AwaitsTag(s.buf, s.syntax.paramStart, s.syntax.invokeEnd)
    case StInInvoke | StInParameter => !Contains(s.buf, ">")
    case StInParameterValue => !Contains(s.buf, s.syntax.paramEnd)
    case StCheckingToolBlockEnd => Partial(s.buf, EOS)
    case StGlmAfterCall | StQwenAfterCall => AwaitsCall(s.d, SkipSpace(s.buf))
    case _ => ScanFrom(s.d, SpotOf(s), s.buf) == Bad("")
  }

  /** Nothing, or the beginning of a tag that opens with `start`, or of the close tag `end`. */
  predicate AwaitsTag(buf: string, start: string, end: string) {
    buf == "" ||
    (!IsAsciiSpace(buf[0]) && (Classify(buf, start) == PartialTag || (Classify(buf, start) == No && Partial(buf, end)))
     && (end == "" || !(end <= buf)))
  }

  /** Nothing, or the beginning of another call or of the end-of-sentence token. */
  predicate AwaitsCall(d: Reader, t: string) {
    t == "" || (!(d.xml.callStart <= t) && !(EOS <= t) && (Partial(t, d.xml.callStart) || Partial(t, EOS)))
  }

  predicate Quiet(s: Snap) {
    if s.final then Finished(s) else Waiting(s)
  }

  /** One turn of the loop: bytes are consumed, or the state moves on, or the decoder waits. */
  predicate Progress(s: Snap, t: Snap) {
    || |t.buf| < |s.buf|
    || (t.buf == s.buf && (Rank(t.state) < Rank(s.state) || (t.state == s.state && Quiet(t))))
  }

  /** What every handler keeps. */
  ghost predicate Stepped(s: Snap, t: Snap, events: seq<Event>) {
    && t.d == s.d && t.thinking == s.thinking && t.full == s.full && t.final == s.final
    && t.emitted == s.emitted + events
    && (t.state == StThinking ==> s.state == StThinking && t.stanza == HasStanza(t.d, t.full))
    && Progress(s, t)
    && (Told(s) ==> Told(t)) && (Tracked(s) ==> Tracked(t))
    && Valid(t)
  }

  lemma Moves(s: Snap, t: Snap, events: seq<Event>)
    requires t.d == s.d && t.thinking == s.thinking && t.full == s.full && t.final == s.final &&
             t.emitted == s.emitted + events
    requires s.state != StThinking && t.state != StThinking && NoReasoning(events)
    requires |t.buf| < |s.buf| || (t.buf == s.buf && Rank(t.state) < Rank(s.state))
    requires Tracked(s) ==> Tracked(t)
    requires Valid(t)
    ensures Stepped(s, t, events)
  {
    hide Valid, WellFormed, XmlWellFormed, Thinned, ReasoningPart, ReasoningOf, NoReasoning, Index, Tracked;
    ReasoningStays(s.emitted, events);
  }

  /** Nothing to do until more input arrives. */
  lemma Waits(s: Snap)
    requires Quiet(s) && s.state != StThinking
    requires Valid(s)
    ensures Stepped(s, s, [])
  {
    hide Valid, Quiet, WellFormed, XmlWellFormed, Told, Tracked;
    assert s.emitted + [] == s.emitted;
  }

  /** Nothing to do inside a block until more input arrives. */
  lemma WaitsInside(s: Snap)
    requires !s.final && IsOpenState(s.state) && Waiting(s)
    requires Valid(s)
    ensures Stepped(s, s, [])
  {
    hide Valid, WellFormed, XmlWellFormed, Waiting;
    Waits(s);
  }

  /** A step after skipping `n` bytes is a step. */
  lemma AfterSkip(s: Snap, n: nat, t: Snap, events: seq<Event>)
    requires n <= |s.buf| && s.state != StThinking && Stepped(Move(s, n), t, events)
    requires Tracked(s) ==> Tracked(Move(s, n))
    ensures Stepped(s, t, events)
  {
    hide Valid, Quiet, WellFormed, XmlWellFormed, Thinned, ReasoningPart, ReasoningOf, Index, Tracked;
    assert n == 0 ==> s.buf[n..] == s.buf;
  }

  // ----- moving through a block -----

  function Move(s: Snap, n: nat): Snap {
    s.(buf := From(s.buf, n))
  }

  lemma MoveConsumes(s: Snap, n: nat)
    requires Shape(s) && n <= |s.buf|
    ensures Shape(Move(s, n)) && Consumed(Move(s, n)) == Consumed(s) + Until(s.buf, n)
  {
    hide WellFormed;
    var k := |s.full| - |s.buf|;
    assert s.full[k..][n..] == s.full[k + n..];
    assert s.full[s.base..k + n] == s.full[s.base..k] + s.full[k..k + n];
    assert s.buf[..n] == s.full[k..k + n];
  }

  /** Two spots whose scans agree on every continuation. */
  ghost predicate SpotsAgree(d: Reader, a: Spot, buf: string, b: Spot, buf': string, final: bool) {
    forall ext: string :: (final ==> ext == "") ==> ScanFrom(d, a, buf + ext) == ScanFrom(d, b, buf' + ext)
  }

  /** A spot whose scan fails, `n` bytes on, on every continuation. */
  ghost predicate SpotFails(d: Reader, a: Spot, buf: string, rest: string, final: bool) {
    forall ext: string :: (final ==> ext == "") ==> ScanFrom(d, a, buf + ext) == Bad(rest + ext)
  }

  ghost predicate SameBlock(s: Snap, t: Snap) {
    && t.d == s.d && t.thinking == s.thinking && t.full == s.full && t.final == s.final
    && t.base == s.base && t.marker == s.marker && t.implicit == s.implicit && t.rawStart == s.rawStart &&
       t.emitted == s.emitted
    && t.syntax == s.syntax && (IsBlockState(s.state) <==> IsBlockState(t.state))
  }

  /** An open block is tracked to a spot that agrees with the one before. */
  lemma BlockTracked(s: Snap, t: Snap)
    requires IsOpenState(s.state) && IsOpenState(t.state) && SameBlock(s, t)
    requires SpotsAgree(s.d, SpotOf(s), s.buf, SpotOf(t), t.buf, s.final)
    requires t.state == StCheckingToolBlockEnd && s.implicit && !s.final ==>
             Classify(t.buf, s.syntax.invokeStart) == No
    ensures Tracked(s) ==> Tracked(t)
  {
    hide ScanFrom, SpotOf, NextMarker, MarkerAt, ScanOpened, Index, WellFormed, XmlWellFormed, Alike, Classify;
    if Tracked(s) && !s.final {
      forall ext: string ensures TracksAt(t, From(t.full, t.base) + ext, ext) {
        assert TracksAt(s, From(s.full, s.base) + ext, ext);
      }
    }
  }

  lemma BlockStep(s: Snap, t: Snap, n: nat)
    requires Valid(s) && IsOpenState(s.state) && IsOpenState(t.state) && SameBlock(s, t)
    requires n <= |s.buf| && t.buf == From(s.buf, n) && (OpenBooks(s) && Shape(t) ==> OpenBooks(t))
    requires SpotsAgree(s.d, SpotOf(s), s.buf, SpotOf(t), t.buf, s.final)
    requires t.state == StCheckingToolBlockEnd && s.implicit && !s.final ==>
             Classify(t.buf, s.syntax.invokeStart) == No
    ensures Valid(t) && (Tracked(s) ==> Tracked(t))
    ensures n > 0 || Rank(t.state) < Rank(s.state) ==> Stepped(s, t, [])
  {
    hide Valid, Stepped, Tracked, SpotsAgree;
    BlockStepIsValid(s, t, n);
    BlockTracked(s, t);
    assert s.emitted + [] == s.emitted;
    if n > 0 || Rank(t.state) < Rank(s.state) {
      assert n == 0 ==> s.buf[n..] == s.buf;
      Moves(s, t, []);
    }
  }

  lemma BlockStepIsValid(s: Snap, t: Snap, n: nat)
    requires Valid(s) && IsOpenState(s.state) && IsOpenState(t.state) && SameBlock(s, t)
    requires n <= |s.buf| && t.buf == From(s.buf, n) && (OpenBooks(s) && Shape(t) ==> OpenBooks(t))
    requires SpotsAgree(s.d, SpotOf(s), s.buf, SpotOf(t), t.buf, s.final)
    ensures Valid(t)
  {
    hide Meaning, DecideAll, ScanFrom, OpenBooks, FlatBooks, ThinkingBooks, Shows, SpotOf, WellFormed, XmlWellFormed;
    MoveConsumes(s, n);
    var before := s.full[s.base..s.marker];
    forall ext: string | s.final ==> ext == ""
      ensures Meaning(s.d, PhaseOf(s), s.buf + ext) == Meaning(s.d, PhaseOf(t), t.buf + ext)
    {
      BlockMoves(s.d, Consumed(s), before, s.implicit, SpotOf(s), SpotOf(t), s.buf, n, ext);
    }
    StaysFaithful(s.d, s.thinking, s.full, PhaseOf(s), s.buf, PhaseOf(t), t.buf, s.final);
  }

  // ----- falling back to raw text -----

  /** `emitContent`: an empty text makes no event. */
  function ContentEvents(text: string): seq<Event> {
    if text == "" then [] else [ContentDelta(text)]
  }

  lemma ContentIsNoReasoning(text: string)
    ensures NoReasoning(ContentEvents(text))
  {}

  function Shown(s: Snap, text: string): seq<Event> {
    s.emitted + ContentEvents(text)
  }

  lemma ShownIs(s: Snap, text: string)
    ensures ContentOf(Shown(s, text)) == ContentOf(s.emitted) + text
    ensures ToolsOf(Shown(s, text)) == ToolsOf(s.emitted)
  {
    if text != "" {
      OneMore(s.emitted, ContentDelta(text));
    } else {
      assert s.emitted + [] == s.emitted;
    }
  }

  /** `enterRawMode`: tool events are dropped and the consumed text is shown. */
  function RawOf(s: Snap): Snap {
    s.(emitted := Shown(s, Between(s.full, s.rawStart, |s.full| - |s.buf|)), state := StRaw, pending := [], calls := [],
       args := [], seenOp := false, implicit := false, closed := false, read := [])
  }

  /** The decoder may fall back to raw text here. */
  ghost predicate FallsBack(s: Snap) {
    Shape(s) && ShownToBlock(s) && Valid(RawOf(s))
  }

  /** The text `enterRawMode` replays. */
  function ReplayEvents(s: Snap): seq<Event> {
    if s.rawStart <= |s.full| - |s.buf| then ContentEvents(s.full[s.rawStart..|s.full| - |s.buf|]) else []
  }

  /** The block is malformed, `n` bytes on: falling back to raw text is the step to take. */
  ghost predicate Rejects(s: Snap, n: int) {
    var m := if n <= 0 then s else Move(s, n);
    && |m.buf| <= |m.full| && m.rawStart <= |m.full| - |m.buf|
    && Stepped(s, RawOf(m), ReplayEvents(m))
  }

  lemma FallingBack(s: Snap, n: nat)
    requires n <= |s.buf| && IsOpenState(s.state)
    requires FallsBack(Move(s, n)) && (Tracked(s) ==> Tracked(RawOf(Move(s, n))))
    ensures Rejects(s, n)
  {
    hide Tracked, Valid, WellFormed, XmlWellFormed, Unambiguous, ContentOf, ToolsOf, ContentEvents, SkipSpace,
         GlmName, GlmArgs, NoReasoning, Told, FlatBooks, OpenBooks, Quiet;
    assert n == 0 ==> s.buf[n..] == s.buf;
    var m := Move(s, n);
    ContentIsNoReasoning(m.full[m.rawStart..|m.full| - |m.buf|]);
    Moves(s, RawOf(Move(s, n)), ReplayEvents(Move(s, n)));
    assert n == 0 ==> Move(s, n) == s;
  }

  lemma RawIsValid(t: Snap)
    requires Shape(t) && t.base <= t.marker <= |t.full| && t.state == StRaw && FlatBooks(t)
    requires Faithful(t.d, t.thinking, t.full, Raw(Consumed(t)), t.buf, t.final)
    ensures Valid(t)
  {
    hide Shape, Faithful, Meaning, SpotOf, FlatBooks;
  }

  lemma RawShape(m: Snap)
    requires Shape(m) && ShownToBlock(m)
    ensures var t := RawOf(m); Shape(t) && Consumed(t) == Consumed(m) && FlatBooks(t)
  {
    hide ContentOf, ToolsOf, Unambiguous;
    var k := |m.full| - |m.buf|;
    ShownIs(m, m.full[m.rawStart..k]);
    Adjacent(m.full, m.base, m.rawStart, k);
  }

  lemma Adjacent(text: string, a: nat, b: nat, c: nat)
    requires a <= b <= c <= |text|
    ensures text[a..c] == text[a..b] + text[b..c]
  {}

  lemma RawKeeps(s: Snap, n: nat)
    requires Valid(s) && IsOpenState(s.state) && n <= |s.buf|
    requires Agree(s.d, PhaseOf(s), s.buf, Raw(Consumed(s) + Until(s.buf, n)), From(s.buf, n), s.final)
    requires Tracked(s) ==> Tracked(RawOf(Move(s, n)))
    ensures Rejects(s, n)
  {
    hide Valid, Agree, Rejects, FallsBack, Shape, PhaseOf, Consumed, Tracked;
    RawIsNext(s, n);
    FallingBack(s, n);
  }

  lemma RawIsNext(s: Snap, n: nat)
    requires Valid(s) && IsOpenState(s.state) && n <= |s.buf|
    requires Agree(s.d, PhaseOf(s), s.buf, Raw(Consumed(s) + Until(s.buf, n)), From(s.buf, n), s.final)
    ensures FallsBack(Move(s, n))
  {
    assert
      && Shape(s) && ShownToBlock(s) && s.base <= s.marker <= |s.full|
      && Faithful(s.d, s.thinking, s.full, PhaseOf(s), s.buf, s.final) by {
      hide Shape, Faithful, Meaning, SpotOf;
    }
    hide Valid, Shape, Faithful, Agree, PhaseOf, IsOpenState, FlatBooks, Consumed, ContentOf, ToolsOf;
    MoveConsumes(s, n);
    var m := Move(s, n);
    RawShape(m);
    StaysFaithful(s.d, s.thinking, s.full, PhaseOf(s), s.buf, Raw(Consumed(m)), m.buf, s.final);
    RawIsValid(RawOf(m));
  }

  /** Raw text is tracked once no continuation closes the block. */
  lemma RawTracked(s: Snap, t: Snap)
    requires IsOpenState(s.state) && t.state == StRaw && t.d == s.d && t.thinking == s.thinking && t.full == s.full &&
             t.final == s.final && t.base == s.base
    requires IsBlockState(s.state) && !s.final ==>
             forall ext: string :: !ClosedBy(s.syntax, s.implicit, ScanFrom(s.d, SpotOf(s), s.buf + ext))
    requires !IsBlockState(s.state) ==> IsXml(s.d.dialect)
    ensures Tracked(s) ==> Tracked(t)
  {
    hide ScanFrom, SpotOf, NextMarker, ScanOpened, Index, WellFormed, XmlWellFormed, Classify, OpenAt, SkipSpace,
         Partial;
    if Tracked(s) && !s.final {
      forall ext: string ensures TracksAt(t, From(t.full, t.base) + ext, ext) {
        assert TracksAt(s, From(s.full, s.base) + ext, ext);
      }
    }
  }

  lemma FailsTracked(s: Snap, n: nat)
    requires IsOpenState(s.state) && SpotFails(s.d, SpotOf(s), s.buf, From(s.buf, n), s.final)
    requires Valid(s)
    ensures Tracked(s) ==> Tracked(RawOf(Move(s, n)))
  {
    hide Tracked, ScanFrom, SpotOf, Consumed, Valid, Shown, From;
    StateOfDialect(s);
    RawTracked(s, RawOf(Move(s, n)));
  }

  lemma StateOfDialect(s: Snap)
    requires IsOpenState(s.state)
    requires Valid(s)
    ensures !IsBlockState(s.state) ==> IsXml(s.d.dialect)
  {
    hide Faithful, ShownToBlock, BlockEvents, CallSoFar, Shape;
  }

  lemma BlockRaw(s: Snap, n: nat)
    requires Valid(s) && IsOpenState(s.state) && n <= |s.buf|
    requires SpotFails(s.d, SpotOf(s), s.buf, From(s.buf, n), s.final)
    ensures Rejects(s, n)
  {
    hide Tracked, Rejects, Valid, SpotFails, SpotOf, Agree, PhaseOf, Consumed, RawOf;
    FailsTracked(s, n);
    BlockIsRaw(s, n);
    RawKeeps(s, n);
  }

  lemma BlockIsRaw(s: Snap, n: nat)
    requires Valid(s) && IsOpenState(s.state) && n <= |s.buf|
    requires SpotFails(s.d, SpotOf(s), s.buf, From(s.buf, n), s.final)
    ensures Agree(s.d, PhaseOf(s), s.buf, Raw(Consumed(s) + Until(s.buf, n)), From(s.buf, n), s.final)
  {
    hide Meaning, DecideAll, ScanFrom, OpenBooks, SpotOf, WellFormed, XmlWellFormed;
    var before := s.full[s.base..s.marker];
    forall ext: string | s.final ==> ext == ""
      ensures Meaning(s.d, PhaseOf(s), s.buf + ext) == Meaning(s.d, Raw(Consumed(s) + s.buf[..n]), s.buf[n..] + ext)
    {
      BlockFailsAt(s.d, Consumed(s), before, s.implicit, SpotOf(s), s.buf, n, ext);
    }
  }

  lemma BlockFailsAt(d: Reader, whole: string, before: string, implicit: bool, a: Spot, b: string, n: nat, ext: string)
    requires n <= |b| && ScanFrom(d, a, b + ext) == Bad(b[n..] + ext)
    ensures Meaning(d, InBlock(whole, before, implicit, a), b + ext) == Meaning(d, Raw(whole + b[..n]), b[n..] + ext)
  {
    hide UpToEos, ScanFrom;
    MoveAcross(whole, b, n, ext);
    DropFront(whole + b[..n], b[n..] + ext, 0);
  }
}
