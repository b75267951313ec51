/** The state of the incremental decoder (dsml/stream.go) and its invariant: at every moment the state
    means one verdict for every continuation of the input. */
module DecoderState {
  import opened Text
  import opened ToolText
  import opened Markup
  import opened Calls
  import opened Grammar
  import opened Phases
  import opened Transitions
  import opened Decode

  const SAFETY_MARGIN := 64
  const STANZA_HOLDBACK := 80

  datatype State =
    | StThinking | StContent
    | StInToolCalls | StInInvoke | StInInvokeBody | StInParameter | StInParameterValue | StCheckingToolBlockEnd
    | StRaw | StDone
    | StGlmName | StGlmArgKey | StGlmArgValue | StGlmAfterCall
    | StQwenFn | StQwenParam | StQwenParamValue | StQwenAfterFn | StQwenAfterCall

  predicate IsBlockState(s: State) {
    s.StInToolCalls? || s.StInInvoke? || s.StInInvokeBody? || s.StInParameter? || s.StInParameterValue? ||
        s.StCheckingToolBlockEnd?
  }

  predicate IsGlmState(s: State) {
    s.StGlmName? || s.StGlmArgKey? || s.StGlmArgValue? || s.StGlmAfterCall?
  }

  predicate IsQwenState(s: State) {
    s.StQwenFn? || s.StQwenParam? || s.StQwenParamValue? || s.StQwenAfterFn? || s.StQwenAfterCall?
  }

  predicate IsOpenState(s: State) {
    IsBlockState(s) || IsGlmState(s) || IsQwenState(s)
  }

  /** The states that read inside a call. */
  predicate InCall(s: State) {
    || s.StInInvokeBody? || s.StInParameter? || s.StInParameterValue?
    || s.StGlmArgKey? || s.StGlmArgValue? || s.StQwenParam? || s.StQwenParamValue? || s.StQwenAfterFn?
  }

  /** Transitions that consume nothing strictly lower this rank. */
  function Rank(s: State): nat {
    match s
    case StThinking => 5
    case StContent => 4
    case StInInvoke | StInParameter | StCheckingToolBlockEnd => 2
    case StRaw => 1
    case StDone => 0
    case _ => 3
  }

  // ----- what events show -----

  function ContentOf(events: seq<Event>): string {
    if events == [] then ""
    else
      var e := events[|events| - 1];
      ContentOf(events[..|events| - 1]) + if e.ContentDelta? then e.text else ""
  }

  function ToolsOf(events: seq<Event>): seq<Event> {
    if events == [] then []
    else
      var e := events[|events| - 1];
      ToolsOf(events[..|events| - 1]) + if IsToolEvent(e) then [e] else []
  }

  lemma OneMore(events: seq<Event>, e: Event)
    ensures ContentOf(events + [e]) == ContentOf(events) + if e.ContentDelta? then e.text else ""
    ensures ToolsOf(events + [e]) == ToolsOf(events) + if IsToolEvent(e) then [e] else []
  {
    assert (events + [e])[..|events|] == events;
  }

  lemma {:induction false} ToolsAppend(events: seq<Event>, more: seq<Event>)
    requires forall i :: 0 <= i < |more| ==> IsToolEvent(more[i])
    ensures ContentOf(events + more) == ContentOf(events)
    ensures ToolsOf(events + more) == ToolsOf(events) + more
  {
    if more == [] {
      assert events + more == events;
    } else {
      var init, e := more[..|more| - 1], more[|more| - 1];
      assert more == init + [e];
      assert events + more == events + init + [e];
      assert IsToolEvent(e) && !e.ContentDelta?;
      ToolsAppend(events, init);
      OneMore(events + init, e);
    }
  }

  function ReasoningOf(events: seq<Event>): string {
    if events == [] then ""
    else
      var e := events[|events| - 1];
      ReasoningOf(events[..|events| - 1]) + if e.ReasoningDelta? then e.text else ""
  }

  predicate NoReasoning(events: seq<Event>) {
    forall i :: 0 <= i < |events| ==> !events[i].ReasoningDelta?
  }

  lemma {:induction false} ReasoningStays(events: seq<Event>, more: seq<Event>)
    requires NoReasoning(more)
    ensures ReasoningOf(events + more) == ReasoningOf(events)
  {
    if more == [] {
      assert events + more == events;
    } else {
      var init := more[..|more| - 1];
      assert (events + more)[..|events + more| - 1] == events + init;
      ReasoningStays(events, init);
    }
  }

  /** Reasoning as it is shown: the text, from which some `<think>` tags may have been dropped. */
  predicate Thinned(text: string, shown: string)
    decreases |text|
  {
    || (text == "" && shown == "")
    || (THINK_START <= text && Thinned(text[|THINK_START|..], shown))
    || (text != "" && shown != "" && text[0] == shown[0] && Thinned(text[1..], shown[1..]))
  }

  /** The reasoning of a text: what is in front of the first `</think>`. */
  function ReasoningPart(thinking: bool, t: string): string {
    if !thinking then ""
    else if Index(t, THINK_END) < 0 then t
    else t[..Index(t, THINK_END)]
  }

  /** The tool events of a verdict. */
  function VerdictEvents(d: Reader, v: Verdict): seq<Event> {
    match v.calls
    case None => []
    case Some(calls) => BlockEvents(d.json, IsXml(d.dialect), calls)
  }

  /** Events show a verdict when their tool events are exactly its calls' and their content is its content,
      except that two line breaks directly in front of an accepted block may be missing. */
  predicate Shows(d: Reader, events: seq<Event>, v: Verdict) {
    && ToolsOf(events) == VerdictEvents(d, v)
    && (ContentOf(events) == v.content ||
       (v.calls.Some? && !IsXml(d.dialect) && ContentOf(events) + "\n\n" == v.content))
  }

  /** For every continuation (none, once the input is closed) the phase means the verdict on the whole text. */
  ghost predicate Faithful(d: Reader, thinking: bool, full: string, ph: Phase, buf: string, final: bool) {
    forall ext: string :: (final ==> ext == "") ==> DecideAll(d, thinking, full + ext) == Meaning(d, ph, buf + ext)
  }

  /** Phases that agree on every continuation. */
  ghost predicate Agree(d: Reader, ph: Phase, buf: string, ph': Phase, buf': string, final: bool) {
    forall ext: string :: (final ==> ext == "") ==> Meaning(d, ph, buf + ext) == Meaning(d, ph', buf' + ext)
  }

  lemma StaysFaithful(d: Reader, thinking: bool, full: string, ph: Phase, buf: string, ph': Phase, buf': string,
          final: bool)
    requires Faithful(d, thinking, full, ph, buf, final) && Agree(d, ph, buf, ph', buf', final)
    ensures Faithful(d, thinking, full, ph', buf', final)
  {
    hide Meaning, DecideAll;
    forall ext: string | final ==> ext == "" ensures DecideAll(d, thinking, full + ext) == Meaning(d, ph', buf' + ext) {
      assert Meaning(d, ph, buf + ext) == Meaning(d, ph', buf' + ext);
    }
  }

  lemma FaithfulAfterInput(d: Reader, thinking: bool, full: string, ph: Phase, buf: string, chunk: string)
    requires Faithful(d, thinking, full, ph, buf, false)
    ensures Faithful(d, thinking, full + chunk, ph, buf + chunk, false)
  {
    hide Meaning, DecideAll;
    forall ext: string ensures DecideAll(d, thinking, full + chunk + ext) == Meaning(d, ph, buf + chunk + ext) {
      assert full + chunk + ext == full + (chunk + ext);
      assert buf + chunk + ext == buf + (chunk + ext);
    }
  }

  lemma FaithfulAtEnd(d: Reader, thinking: bool, full: string, ph: Phase, buf: string, final: bool)
    requires Faithful(d, thinking, full, ph, buf, final)
    ensures DecideAll(d, thinking, full) == Meaning(d, ph, buf)
    ensures Faithful(d, thinking, full, ph, buf, true)
  {
    hide Meaning, DecideAll;
    assert full + "" == full && buf + "" == buf;
    assert DecideAll(d, thinking, full + "") == Meaning(d, ph, buf + "");
  }

  // ----- the state -----

  datatype Pending = Pending(name: string, arguments: string)

  /** The decoder's fields. The last seven are specification only: what was emitted, where the content
      and the open block's first tag begin, the calls and parameters read, and the verdict once reached. */
  datatype Snap = Snap(
    d: Reader, thinking: bool, buf: string, full: string, state: State, final: bool,
    syntax: Syntax, seenOp: bool, implicit: bool, rawStart: nat, calls: seq<Pending>, args: Args,
    paramName: string, paramIsString: bool, dup: bool, pending: seq<Event>, closed: bool,
    scanFrom: nat, stanza: bool,
    emitted: seq<Event>, base: nat, marker: nat, read: seq<Call>, name: string, ps: seq<Param>, outcome: Verdict)

  /** The reasoning deltas so far spell the reasoning read so far. */
  predicate Told(s: Snap) {
    Thinned(if s.state == StThinking then FrontOf(s) else ReasoningPart(s.thinking, s.full), ReasoningOf(s.emitted)) &&
    (s.state != StThinking && s.thinking ==> Index(s.full, THINK_END) >= 0)
  }

  function FrontOf(s: Snap): string {
    if |s.buf| <= |s.full| then s.full[..|s.full| - |s.buf|] else ""
  }

  predicate Shape(s: Snap) {
    && |s.buf| <= |s.full| && s.buf == s.full[|s.full| - |s.buf|..]
    && s.base <= |s.full| - |s.buf|
    && s.d.table != [] && Unambiguous(s.d.table)
    && (s.thinking || s.base == 0)
  }

  /** The text consumed after the reasoning. */
  function Consumed(s: Snap): string {
    Between(s.full, s.base, |s.full| - |s.buf|)
  }

  /** The text in front of the open block. */
  function Before(s: Snap): string {
    Between(s.full, s.base, s.marker)
  }

  function BlockOf(s: Snap): Block {
    Block(s.syntax, s.implicit, s.d.json, true)
  }

  function SpotOf(s: Snap): Spot {
    match s.state
    case StInToolCalls => if s.seenOp then AtBlock(BlockOf(s), s.read) else AtOpening(BlockOf(s))
    case StInInvoke => AtInvoke(BlockOf(s), s.read)
    case StInInvokeBody => AtBody(BlockOf(s), s.read, s.name, s.ps)
    case StInParameter => AtParam(BlockOf(s), s.read, s.name, s.ps)
    case StInParameterValue => AtValue(BlockOf(s), s.read, s.name, s.ps, s.paramName, s.paramIsString)
    case StGlmName => AtGlmName(s.read)
    case StGlmArgKey => AtGlmArgs(s.read, s.name, s.ps)
    case StGlmArgValue => AtGlmValue(s.read, s.name, s.ps, s.paramName)
    case StGlmAfterCall => AtGlmEnd(s.read)
    case StQwenFn => AtQwenFn(s.read)
    case StQwenParam => AtQwenParams(s.read, s.name, s.ps)
    case StQwenParamValue => AtQwenValue(s.read, s.name, s.ps, s.paramName)
    case StQwenAfterFn => AtQwenFnEnd(s.read, s.name, s.ps)
    case StQwenAfterCall => AtQwenEnd(s.read)
    case _ => AtEnd(s.read)
  }

  function PhaseOf(s: Snap): Phase {
    match s.state
    case StThinking => Thinking
    case StContent => Content(Consumed(s))
    case StRaw => Raw(Consumed(s))
    case StDone => Done(s.outcome)
    case _ => InBlock(Consumed(s), Before(s), s.implicit, SpotOf(s))
  }

  /** The decoder waits for the block's opening tag: it is there. */
  predicate AtOpeningTag(syn: Syntax, buf: string) {
    if "\n\n" <= buf then syn.toolStart <= buf[2..] else syn.toolStart <= buf
  }

  /** Events of the call being read. */
  function CallSoFar(s: Snap): seq<Event> {
    if !InCall(s.state) then []
    else [CallStart(|s.read|, s.name)] +
         if IsXml(s.d.dialect) then XmlParamEvents(|s.read|, s.ps) else ParamEvents(s.d.json, |s.read|, s.ps)
  }

  /** The emission so far ends where the block begins. */
  predicate ShownToBlock(s: Snap) {
    && s.base <= s.rawStart <= |s.full| - |s.buf|
    && ContentOf(s.emitted) == s.full[s.base..s.rawStart] && ToolsOf(s.emitted) == []
  }

  predicate OpenBooks(s: Snap) {
    && ShownToBlock(s)
    && (s.marker == s.rawStart ||
       (!IsXml(s.d.dialect) && s.marker == s.rawStart + 2 <= |s.full| && s.full[s.rawStart..s.marker] == "\n\n"))
    && (IsBlockState(s.state) <==> !IsXml(s.d.dialect))
    && (IsGlmState(s.state) ==> s.d.dialect == Glm) && (IsQwenState(s.state) ==> s.d.dialect == Qwen)
    && (IsXml(s.d.dialect) ==> !s.implicit)
    && s.pending == BlockEvents(s.d.json, IsXml(s.d.dialect), s.read) + CallSoFar(s)
    && |s.calls| == |s.read| + (if InCall(s.state) then 1 else 0)
    && (InCall(s.state) ==> s.args == Collect(s.d.json, s.ps, true) && s.calls[|s.read|].name == s.name)
    && (InCall(s.state) && !IsXml(s.d.dialect) ==> s.dup == HasDuplicate(s.ps))
    && (s.state == StInToolCalls && !s.seenOp ==> !s.implicit && s.read == [] && AtOpeningTag(s.syntax, s.buf))
    && (IsBlockState(s.state) && s.state != StInToolCalls ==> s.seenOp)
    && (s.state == StCheckingToolBlockEnd && s.implicit ==> s.buf != "" && !IsAsciiSpace(s.buf[0]))
    && (s.closed <==> s.state == StCheckingToolBlockEnd)
  }

  predicate FlatBooks(s: Snap) {
    && ToolsOf(s.emitted) == [] && s.read == [] && s.pending == [] && s.calls == [] && !s.closed && !s.implicit
    && ContentOf(s.emitted) == Consumed'(s)
  }

  /** What a flat state has shown: nothing while reasoning, else all it consumed. */
  function Consumed'(s: Snap): string {
    if s.state == StThinking then "" else Consumed(s)
  }

  /** No `</think>` begins in the first `n` bytes, nor, while input may follow, can begin there. */
  predicate EndFree(s: string, n: int, final: bool) {
    forall j :: 0 <= j < n && j <= |s| ==> !(THINK_END <= s[j..]) && (final || !Partial(s[j..], THINK_END))
  }

  /** While reasoning is open, no `</think>` has been passed over and the stanza scan has missed nothing. */
  predicate ThinkingBooks(s: Snap) {
    && s.base == 0 && s.thinking
    && EndFree(s.full, |s.full| - |s.buf|, s.final)
    && (s.scanFrom == 0 || s.scanFrom + STANZA_HOLDBACK <= |s.full|)
    && (s.stanza ==> HasStanza(s.d, s.full))
    && (!s.stanza ==> forall j :: 0 <= j < s.scanFrom ==> !StanzaAt(s.d, s.full[j..]))
  }

  /** A complete tool stanza opening at the front of `s`. */
  predicate StanzaAt(d: Reader, s: string) {
    if IsXml(d.dialect) then d.xml.callStart <= s
    else exists i :: 0 <= i < |d.table| && d.table[i].toolStart <= s
  }

  predicate HasStanza(d: Reader, s: string) {
    exists j :: 0 <= j <= |s| && StanzaAt(d, s[j..])
  }

  predicate Books(s: Snap) {
    match s.state
    case StThinking => ThinkingBooks(s) && FlatBooks(s)
    case StContent | StRaw => FlatBooks(s)
    case StDone => Shows(s.d, s.emitted, s.outcome)
    case _ => OpenBooks(s)
  }

  ghost predicate Valid(s: Snap) {
    && Shape(s) && s.base <= s.marker <= |s.full| && Books(s)
    && Faithful(s.d, s.thinking, s.full, PhaseOf(s), s.buf, s.final)
  }

  // ----- when a block is closed -----

  /** Scans with the same calls and the same text behind them, white space aside; or none of them closed. */
  predicate Alike(a: Scan, b: Scan) {
    if a.Closed? then b.Closed? && a.calls == b.calls && SkipSpace(a.rest) == SkipSpace(b.rest) else b.Bad?
  }

  /** A scanned block is over: its close tag has been read, or in front of no close tag some text that is no call, and
      so far nothing but white space and a beginning of the end-of-sentence token follows. */
  predicate ClosedBy(syn: Syntax, implicit: bool, scan: Scan) {
    scan.Closed? &&
    var t := SkipSpace(scan.rest);
    Partial(t, EOS) && (implicit ==> t != "" && Classify(t, syn.invokeStart) == No)
  }

  /** The reply opens with a block that is over. */
  predicate ReplyCloses(d: Reader, r: string) {
    var n := NextMarker(d, r);
    n < |r| &&
    match MarkerAt(d, r[n..])
    case Opens(syn, implicit) => ClosedBy(syn, implicit, ScanOpened(d, syn, implicit, r[n..]))
    case _ => false
  }

  /** The text in which calls are looked for: behind the first `</think>`, if there is reasoning to wait for. */
  function ReplyText(thinking: bool, t: string): string {
    if !thinking then t else From(t, Index(t, THINK_END) + |THINK_END|)
  }

  /** The text holds a block that is over. */
  predicate BlockOver(d: Reader, thinking: bool, t: string) {
    (thinking ==> Index(t, THINK_END) >= 0) && ReplyCloses(d, ReplyText(thinking, t))
  }

  /** What a state knows of a reply that goes on with `ext`: that plain text held no marker, raw text no block that
      closes, and where the scan of the open block stands. */
  predicate TracksAt(s: Snap, r: string, ext: string) {
    if s.state == StContent then forall j :: 0 <= j < |Consumed(s)| && j <= |r| ==> MarkerAt(s.d, r[j..]) == NoMarker
    else if s.state == StRaw then !ReplyCloses(s.d, r)
    else if IsBlockState(s.state) then
      var n := NextMarker(s.d, r);
      && n < |r| && MarkerAt(s.d, r[n..]) == Opens(s.syntax, s.implicit)
      && Alike(ScanOpened(s.d, s.syntax, s.implicit, r[n..]), ScanFrom(s.d, SpotOf(s), s.buf + ext))
      && (s.state == StCheckingToolBlockEnd && s.implicit ==> Classify(s.buf, s.syntax.invokeStart) == No)
    else true
  }

  /** Out of the reasoning, the reply begins where the base says, and whatever follows is tracked. */
  ghost predicate Tracked(s: Snap) {
    s.state != StThinking && !s.final ==>
      && (s.thinking ==> Index(s.full, THINK_END) >= 0 && s.base == Index(s.full, THINK_END) + |THINK_END|)
      && forall ext: string :: TracksAt(s, From(s.full, s.base) + ext, ext)
  }

  /** What every call of the decoder finds and leaves. */
  ghost predicate Consistent(s: Snap) {
    Told(s) && Tracked(s) && Valid(s)
  }
}
