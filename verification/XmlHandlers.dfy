/** The handlers of the GLM and Qwen dialects (dsml/stream.go), as steps of the decoder's state. */
module XmlHandlers {
  import opened Text
  import opened ToolText
  import opened Markup
  import opened Calls
  import opened Grammar
  import opened Phases
  import opened Transitions
  import opened Decode
  import opened DecoderState
  import opened DecoderSteps
  import opened EndHandlers

  // ----- the fields a handler changes -----

  function CallEntered(s: Snap, n: nat, name: string, to: State): Snap {
    Move(s, n).(calls := s.calls + [Pending(name, "")], args := [], pending := s.pending + [CallStart(|s.calls|, name)],
                state := to, name := name, ps := [])
  }

  function ArgumentTaken(s: Snap, n: nat, p: Param, to: State): Snap {
    Move(s, n).(args := SetArg(s.args, p.key, Fragment(s.d.json, p, true)),
                pending := s.pending + [ArgumentsDelta(|s.read|, p.live)],
                paramName := "", state := to, ps := s.ps + [p])
  }

  function CallLeft(s: Snap, n: nat, arguments: string, to: State): Snap
    requires s.calls != []
  {
    Move(s, n).(calls := s.calls[..|s.calls| - 1] + [Pending(s.calls[|s.calls| - 1].name, arguments)],
                pending := s.pending + [CallEnd(|s.read|, arguments)], args := [], state := to,
                    read := s.read + [Call(s.name, s.ps)])
  }

  function Keyed(s: Snap, n: nat, key: string, to: State): Snap {
    Move(s, n).(paramName := key, state := to)
  }

  function Advanced(s: Snap, n: nat, to: State): Snap {
    Move(s, n).(state := to)
  }

  predicate IsXmlState(to: State) {
    IsGlmState(to) || IsQwenState(to)
  }

  /** The states of a dialect. */
  predicate Belongs(d: Reader, to: State) {
    (d.dialect == Glm && IsGlmState(to)) || (d.dialect == Qwen && IsQwenState(to))
  }

  lemma CallEnteredBooks(s: Snap, n: nat, name: string, to: State)
    requires !InCall(s.state) && InCall(to) && Belongs(s.d, to)
    ensures OpenBooks(s) && n <= |s.buf| && Shape(Move(s, n)) ==> OpenBooks(CallEntered(s, n, name, to))
  {
    hide Stepped, BlockEvents, ContentOf, ToolsOf, WellFormed, XmlWellFormed;
    assert XmlParamEvents(|s.read|, []) == [];
    assert Collect(s.d.json, [], true) == [];
    assert [CallStart(|s.calls|, name)] + [] == [CallStart(|s.calls|, name)];
    assert s.pending + [] == s.pending;
  }

  lemma ArgumentTakenBooks(s: Snap, n: nat, p: Param, to: State)
    requires InCall(s.state) && InCall(to) && Belongs(s.d, to)
    ensures OpenBooks(s) && n <= |s.buf| && Shape(Move(s, n)) ==> OpenBooks(ArgumentTaken(s, n, p, to))
  {
    hide Stepped, BlockEvents, ContentOf, ToolsOf, WellFormed, XmlWellFormed, SetArg, Fragment, XmlParamEvents,
         Collect, CallSoFar, HasDuplicate;
    if OpenBooks(s) {
      ArgumentShown(s, ArgumentTaken(s, n, p, to), p);
      CollectOneMore(s.d.json, s.ps, p);
    }
  }

  lemma CollectOneMore(json: Json, ps: seq<Param>, p: Param)
    ensures Collect(json, ps + [p], true) == SetArg(Collect(json, ps, true), p.key, Fragment(json, p, true))
  {
    assert (ps + [p])[..|ps|] == ps;
  }

  lemma ArgumentShown(s: Snap, t: Snap, p: Param)
    requires s.d == t.d && IsXml(s.d.dialect) && InCall(s.state) && InCall(t.state)
    requires t.read == s.read && t.name == s.name && t.ps == s.ps + [p]
    ensures s.pending == BlockEvents(s.d.json, true, s.read) + CallSoFar(s) ==>
              s.pending + [ArgumentsDelta(|s.read|, p.live)] == BlockEvents(s.d.json, true, s.read) + CallSoFar(t)
  {
    hide Stepped, BlockEvents, WellFormed, XmlWellFormed;
    assert (s.ps + [p])[..|s.ps|] == s.ps;
    assert CallSoFar(t) == CallSoFar(s) + [ArgumentsDelta(|s.read|, p.live)];
  }

  lemma CallLeftBooks(s: Snap, n: nat, to: State)
    requires InCall(s.state) && !InCall(to) && Belongs(s.d, to) && s.calls != []
    ensures OpenBooks(s) && n <= |s.buf| && Shape(Move(s, n)) ==>
            OpenBooks(CallLeft(s, n, BuildJson(s.d.json, s.args), to))
  {
    hide Stepped, BlockEvents, ContentOf, ToolsOf, WellFormed, XmlWellFormed, SetArg, Fragment, XmlParamEvents, Collect;
    if OpenBooks(s) {
      XmlCallComplete(s, BuildJson(s.d.json, s.args));
    }
  }

  lemma XmlCallComplete(s: Snap, arguments: string)
    requires OpenBooks(s) && InCall(s.state) && IsXml(s.d.dialect) && arguments == BuildJson(s.d.json, s.args)
    ensures s.pending + [CallEnd(|s.read|, arguments)] == BlockEvents(s.d.json, true, s.read + [Call(s.name, s.ps)])
  {
    hide Stepped, ContentOf, ToolsOf, WellFormed, XmlWellFormed, XmlParamEvents, Collect, BuildJson;
    var c := Call(s.name, s.ps);
    assert (s.read + [c])[..|s.read|] == s.read;
    assert CallSoFar(s) + [CallEnd(|s.read|, arguments)] == XmlCallEvents(s.d.json, |s.read|, c);
  }

  lemma KeyedBooks(s: Snap, n: nat, key: string, to: State)
    requires InCall(s.state) && InCall(to) && Belongs(s.d, to)
    ensures OpenBooks(s) && n <= |s.buf| && Shape(Move(s, n)) ==> OpenBooks(Keyed(s, n, key, to))
  {
    hide Stepped, BlockEvents, ContentOf, ToolsOf, WellFormed, XmlWellFormed, XmlParamEvents, Collect;
  }

  lemma AdvancedBooks(s: Snap, n: nat, to: State)
    requires InCall(s.state) == InCall(to) && Belongs(s.d, to)
    ensures OpenBooks(s) && n <= |s.buf| && Shape(Move(s, n)) ==> OpenBooks(Advanced(s, n, to))
  {
    hide Stepped, BlockEvents, ContentOf, ToolsOf, WellFormed, XmlWellFormed, XmlParamEvents, Collect;
  }

  lemma DialectOf(s: Snap)
    requires IsXmlState(s.state)
    requires Valid(s)
    ensures OpenBooks(s) && IsXml(s.d.dialect) && !s.implicit &&
            (InCall(s.state) ==> s.calls != [] && |s.calls| == |s.read| + 1)
    ensures IsGlmState(s.state) ==> s.d.dialect == Glm
    ensures IsQwenState(s.state) ==> s.d.dialect == Qwen
  {
    hide Stepped, BlockEvents, ContentOf, ToolsOf, WellFormed, XmlWellFormed, XmlParamEvents, Collect, Faithful,
         ShownToBlock, CallSoFar;
  }

  lemma InDialect(s: Snap)
    requires IsXmlState(s.state)
    requires Valid(s)
    ensures Belongs(s.d, s.state)
  {
    hide Stepped, Valid, OpenBooks, WellFormed, XmlWellFormed;
    DialectOf(s);
  }

  /** A step of the XML dialects. */
  lemma XmlStep(s: Snap, t: Snap, n: nat)
    requires 0 < n <= |s.buf| && SameBlock(s, t) && t.buf == From(s.buf, n)
    requires (IsGlmState(s.state) && IsGlmState(t.state)) || (IsQwenState(s.state) && IsQwenState(t.state))
    requires OpenBooks(s) && Shape(Move(s, n)) ==> OpenBooks(t)
    requires SpotsAgree(s.d, SpotOf(s), s.buf, SpotOf(t), t.buf, s.final)
    requires Valid(s)
    ensures Stepped(s, t, [])
  {
    hide Stepped, Valid, SpotsAgree, OpenBooks, WellFormed, XmlWellFormed, SpotOf;
    ValidFacts(s);
    MoveConsumes(s, n);
    BlockStep(s, t, n);
  }

  lemma CallEnteredStep(s: Snap, n: nat, name: string, to: State, a: Spot, b: Spot)
    requires 0 < n <= |s.buf| && IsXmlState(s.state) && !InCall(s.state) && InCall(to) && Belongs(s.d, to) &&
             Belongs(s.d, s.state)
    requires SpotOf(s) == a && SpotOf(CallEntered(s, n, name, to)) == b &&
             SpotsAgree(s.d, a, s.buf, b, From(s.buf, n), s.final)
    requires Valid(s)
    ensures Stepped(s, CallEntered(s, n, name, to), [])
  {
    hide Stepped, Valid, OpenBooks, SpotsAgree, WellFormed, XmlWellFormed, SpotOf;
    CallEnteredBooks(s, n, name, to);
    XmlStep(s, CallEntered(s, n, name, to), n);
  }

  lemma AdvancedStep(s: Snap, n: nat, to: State, a: Spot, b: Spot)
    requires 0 < n <= |s.buf| && IsXmlState(s.state) && InCall(s.state) == InCall(to) && Belongs(s.d, to) &&
             Belongs(s.d, s.state)
    requires SpotOf(s) == a && SpotOf(Advanced(s, n, to)) == b && SpotsAgree(s.d, a, s.buf, b, From(s.buf, n), s.final)
    requires Valid(s)
    ensures Stepped(s, Advanced(s, n, to), [])
  {
    hide Stepped, Valid, OpenBooks, SpotsAgree, WellFormed, XmlWellFormed, SpotOf;
    AdvancedBooks(s, n, to);
    XmlStep(s, Advanced(s, n, to), n);
  }

  lemma CallLeftStep(s: Snap, n: nat, to: State, a: Spot, b: Spot)
    requires 0 < n <= |s.buf| && IsXmlState(s.state) && InCall(s.state) && !InCall(to) && Belongs(s.d, to) &&
             Belongs(s.d, s.state)
    requires s.calls != [] && SpotOf(s) == a && SpotOf(CallLeft(s, n, BuildJson(s.d.json, s.args), to)) == b
    requires SpotsAgree(s.d, a, s.buf, b, From(s.buf, n), s.final)
    requires Valid(s)
    ensures Stepped(s, CallLeft(s, n, BuildJson(s.d.json, s.args), to), [])
  {
    hide Stepped, Valid, OpenBooks, SpotsAgree, WellFormed, XmlWellFormed, SpotOf, BuildJson;
    CallLeftBooks(s, n, to);
    XmlStep(s, CallLeft(s, n, BuildJson(s.d.json, s.args), to), n);
  }

  lemma XmlFails(s: Snap)
    requires IsXmlState(s.state)
    requires SpotFails(s.d, SpotOf(s), s.buf, s.buf, s.final)
    requires Valid(s)
    ensures Rejects(s, 0)
  {
    hide Stepped, Valid, SpotFails, Rejects, WellFormed, XmlWellFormed, SpotOf;
    assert s.buf[0..] == s.buf;
    BlockRaw(s, 0);
    assert Move(s, 0) == s;
  }

  // ----- GLM -----

  /** The tag after the bare name of a call. */
  predicate NameEnds(x: XmlSyntax, buf: string) {
    Index(buf, "<") >= 0 && (x.keyStart <= buf[Index(buf, "<")..] || x.callEnd <= buf[Index(buf, "<")..])
  }

  lemma GlmNameStep(s: Snap, lt: nat, name: string)
    requires NameEnds(s.d.xml, s.buf) && lt == Index(s.buf, "<") && lt <= |s.buf| &&
             name == TrimSpace(Until(s.buf, lt)) && name != ""
    requires s.state == StGlmName
    requires Valid(s)
    ensures Stepped(s, CallEntered(s, lt, name, StGlmArgKey), [])
  {
    hide Stepped, Valid, OpenBooks, SpotsAgree, WellFormed, XmlWellFormed, Index, TrimSpace, NameEnds;
    DialectOf(s);
    NonEmptyName(s.buf, lt);
    GlmNameScan(s.d, s.read, s.buf, lt, name, s.final);
    CallEnteredStep(s, lt, name, StGlmArgKey, AtGlmName(s.read), AtGlmArgs(s.read, name, []));
  }

  lemma NonEmptyName(buf: string, lt: nat)
    requires lt <= |buf| && TrimSpace(Until(buf, lt)) != ""
    ensures lt > 0
  {}

  lemma GlmNameScan(d: Reader, calls: seq<Call>, buf: string, lt: nat, name: string, final: bool)
    requires NameEnds(d.xml, buf) && lt == Index(buf, "<") && lt <= |buf| && name == TrimSpace(Until(buf, lt)) &&
             name != ""
    ensures SpotsAgree(d, AtGlmName(calls), buf, AtGlmArgs(calls, name, []), From(buf, lt), final)
  {
    hide Stepped, WellFormed, XmlWellFormed, Index, TrimSpace, GlmName, GlmArgs;
    forall ext: string
      ensures ScanFrom(d, AtGlmName(calls), buf + ext) == ScanFrom(d, AtGlmArgs(calls, name, []), buf[lt..] + ext)
    {
      GlmNameRead(d.xml, calls, buf, ext);
    }
  }

  lemma GlmNameRejectsStep(s: Snap, lt: nat)
    requires lt == Index(s.buf, "<") && lt <= |s.buf|
    requires if NameEnds(s.d.xml, s.buf) then TrimSpace(Until(s.buf, lt)) == ""
             else !Partial(From(s.buf, lt), s.d.xml.keyStart) && !Partial(From(s.buf, lt), s.d.xml.callEnd)
    requires s.state == StGlmName
    requires Valid(s)
    ensures Rejects(s, 0)
  {
    hide Stepped, Valid, Rejects, WellFormed, XmlWellFormed, Index, TrimSpace, GlmName, Partial;
    forall ext: string ensures ScanFrom(s.d, SpotOf(s), s.buf + ext) == Bad(s.buf + ext) {
      if NameEnds(s.d.xml, s.buf) {
        GlmNameRead(s.d.xml, s.read, s.buf, ext);
      } else {
        GlmNameRejects(s.d.xml, s.read, s.buf, ext);
      }
    }
    XmlFails(s);
  }

  lemma GlmCallClosesStep(s: Snap, n: nat)
    requires n == |s.d.xml.callEnd| && s.d.xml.callEnd <= s.buf && s.state == StGlmArgKey && s.calls != []
    requires Valid(s)
    ensures Stepped(s, CallLeft(s, n, BuildJson(s.d.json, s.args), StGlmAfterCall), [])
  {
    hide Stepped, Valid, OpenBooks, WellFormed, XmlWellFormed, GlmArgs, GlmAfter, BuildJson, SkipSpace, GlmValue;
    DialectOf(s);
    XmlTagsNonEmpty(s.d.xml);
    CallLeftBooks(s, n, StGlmAfterCall);
    var t := CallLeft(s, n, BuildJson(s.d.json, s.args), StGlmAfterCall);
    forall ext: string
      ensures ScanFrom(s.d, SpotOf(s), s.buf + ext) ==
              ScanFrom(s.d, AtGlmEnd(s.read + [Call(s.name, s.ps)]), s.buf[n..] + ext)
    {
      GlmCallCloses(s.d.xml, s.read, s.name, s.ps, s.buf, ext);
    }
    assert SpotOf(t) == AtGlmEnd(s.read + [Call(s.name, s.ps)]);
    XmlStep(s, t, n);
  }

  lemma GlmKeyStep(s: Snap, n: nat, key: string)
    requires var x := s.d.xml;
             && KeyComplete(x, s.buf) && key == KeyText(x, s.buf) && key != "" && x.valueStart <= AfterKey(x, s.buf)
             && n == |s.buf| - |AfterKey(x, s.buf)| + |x.valueStart| <= |s.buf|
    requires s.state == StGlmArgKey
    requires Valid(s)
    ensures Stepped(s, Keyed(s, n, key, StGlmArgValue), [])
  {
    hide Stepped, Valid, OpenBooks, WellFormed, XmlWellFormed, GlmArgs, GlmValue, KeyComplete, KeyText, AfterKey,
         SkipSpace, Index, Apart, IsOpener, QwenFn, QwenParams, QwenFnEnd, QwenAfter, QwenValue, ScanBlock, UnlikeEos,
         SpotsAgree;
    DialectOf(s);
    XmlTagsNonEmpty(s.d.xml);
    KeyedBooks(s, n, key, StGlmArgValue);
    var x := s.d.xml;
    AfterKeyIs(x, s.buf);
    assert AfterKey(x, s.buf)[|x.valueStart|..] == s.buf[n..];
    GlmKeyScan(s.d, s.read, s.name, s.ps, s.buf, s.final);
    XmlStep(s, Keyed(s, n, key, StGlmArgValue), n);
  }

  lemma GlmKeyScan(d: Reader, calls: seq<Call>, name: string, ps: seq<Param>, buf: string, final: bool)
    requires KeyComplete(d.xml, buf) && KeyText(d.xml, buf) != "" && d.xml.valueStart <= AfterKey(d.xml, buf)
    ensures var rest := AfterKey(d.xml, buf)[|d.xml.valueStart|..];
            SpotsAgree(d, AtGlmArgs(calls, name, ps), buf, AtGlmValue(calls, name, ps, KeyText(d.xml, buf)), rest,
                       final)
  {
    hide Stepped, WellFormed, XmlWellFormed, GlmArgs, GlmValue, KeyComplete, KeyText, AfterKey;
    var rest := AfterKey(d.xml, buf)[|d.xml.valueStart|..];
    forall ext: string
      ensures ScanFrom(d, AtGlmArgs(calls, name, ps), buf + ext) ==
              ScanFrom(d, AtGlmValue(calls, name, ps, KeyText(d.xml, buf)), rest + ext)
    {
      GlmKeyRead(d.xml, calls, name, ps, buf, ext);
    }
  }

  lemma GlmKeyRejectsStep(s: Snap)
    requires var x := s.d.xml;
             if x.keyStart <= s.buf
             then KeyComplete(x, s.buf) &&
                 (KeyText(x, s.buf) == "" ||
                     (!(x.valueStart <= AfterKey(x, s.buf)) && !Partial(AfterKey(x, s.buf), x.valueStart)))
             else !(x.callEnd <= s.buf) && !Partial(s.buf, x.keyStart) && !Partial(s.buf, x.callEnd)
    requires s.state == StGlmArgKey
    requires Valid(s)
    ensures Rejects(s, 0)
  {
    hide Stepped, Valid, Rejects, WellFormed, XmlWellFormed, GlmArgs, KeyComplete, KeyText, AfterKey, Partial;
    var x := s.d.xml;
    forall ext: string ensures ScanFrom(s.d, SpotOf(s), s.buf + ext) == Bad(s.buf + ext) {
      if x.keyStart <= s.buf {
        GlmKeyRejects(x, s.read, s.name, s.ps, s.buf, ext);
      } else {
        GlmArgsReject(x, s.read, s.name, s.ps, s.buf, ext);
      }
    }
    XmlFails(s);
  }

  lemma GlmValueStep(s: Snap, end: nat, n: nat, p: Param)
    requires end == Index(s.buf, s.d.xml.valueEnd) && n == end + |s.d.xml.valueEnd| <= |s.buf|
    requires var v := Unescape(Until(s.buf, end), s.d.xml.valueEnd); p == Param(s.paramName, v, v, true)
    requires s.state == StGlmArgValue
    requires Valid(s)
    ensures Stepped(s, ArgumentTaken(s, n, p, StGlmArgKey), [])
  {
    hide Stepped, Valid, OpenBooks, WellFormed, XmlWellFormed, GlmArgs, GlmValue, Index, Unescape, SetArg, Fragment,
         SkipSpace, ScanBlock, QwenParams;
    DialectOf(s);
    XmlTagsNonEmpty(s.d.xml);
    ArgumentTakenBooks(s, n, p, StGlmArgKey);
    forall ext: string
      ensures ScanFrom(s.d, SpotOf(s), s.buf + ext) ==
              ScanFrom(s.d, AtGlmArgs(s.read, s.name, s.ps + [p]), s.buf[n..] + ext)
    {
      GlmValueRead(s.d.xml, s.read, s.name, s.ps, s.paramName, s.buf, ext);
    }
    XmlStep(s, ArgumentTaken(s, n, p, StGlmArgKey), n);
  }

  // ----- Qwen -----

  /** A well-formed head with a name, ending `n` bytes into the buffer. */
  predicate HeadAt(buf: string, tag: string, gt: nat, n: nat, name: string) {
    && tag <= SkipSpace(buf)
    && var body := AfterTag(buf, tag);
       gt == IndexAngle(body) && gt < |body| && body[gt] == '>' && name == TrimSpace(body[..gt]) && name != ""
       && n == |buf| - |body| + gt + 1
  }

  lemma HeadRest(buf: string, tag: string, gt: nat, n: nat, name: string)
    requires HeadAt(buf, tag, gt, n, name)
    ensures 0 < n <= |buf| && AfterTag(buf, tag)[gt + 1..] == From(buf, n)
  {
    hide Stepped, SkipSpace, IndexAngle, TrimSpace;
    AfterTagIs(buf, tag);
  }

  lemma QwenFnStep(s: Snap, gt: nat, n: nat, name: string)
    requires HeadAt(s.buf, s.d.xml.fnStart, gt, n, name)
    requires s.state == StQwenFn
    requires Valid(s)
    ensures Stepped(s, CallEntered(s, n, name, StQwenParam), [])
  {
    hide Stepped, Valid, OpenBooks, SpotsAgree, WellFormed, XmlWellFormed, HeadAt;
    InDialect(s);
    QwenFnScan(s.d, s.read, s.buf, gt, n, name, s.final);
    CallEnteredStep(s, n, name, StQwenParam, AtQwenFn(s.read), AtQwenParams(s.read, name, []));
  }

  lemma QwenFnScan(d: Reader, calls: seq<Call>, buf: string, gt: nat, n: nat, name: string, final: bool)
    requires HeadAt(buf, d.xml.fnStart, gt, n, name)
    ensures 0 < n <= |buf| && SpotsAgree(d, AtQwenFn(calls), buf, AtQwenParams(calls, name, []), From(buf, n), final)
  {
    hide Stepped, WellFormed, XmlWellFormed, QwenFn, QwenParams, TrimSpace, IndexAngle, SkipSpace;
    HeadRest(buf, d.xml.fnStart, gt, n, name);
    forall ext: string
      ensures ScanFrom(d, AtQwenFn(calls), buf + ext) == ScanFrom(d, AtQwenParams(calls, name, []), buf[n..] + ext)
    {
      QwenFnRead(d.xml, d.qwenLiteral, calls, buf, ext);
    }
  }

  /** A head `<function=...>` or `<parameter=...>` that is malformed: `<` inside, or no name. */
  predicate BadHead(buf: string, tag: string) {
    tag <= SkipSpace(buf) && IndexAngle(AfterTag(buf, tag)) >= 0
    && (var body := AfterTag(buf, tag); var gt := IndexAngle(body); body[gt] != '>' || TrimSpace(body[..gt]) == "")
  }

  lemma QwenFnFails(d: Reader, calls: seq<Call>, buf: string, final: bool)
    requires BadHead(buf, d.xml.fnStart) ||
             (!(d.xml.fnStart <= SkipSpace(buf)) && !Partial(SkipSpace(buf), d.xml.fnStart))
    ensures SpotFails(d, AtQwenFn(calls), buf, buf, final)
  {
    hide WellFormed, XmlWellFormed, QwenFn, AfterTag, SkipSpace, TrimSpace, IndexAngle, Partial;
    forall ext: string ensures ScanFrom(d, AtQwenFn(calls), buf + ext) == Bad(buf + ext) {
      if d.xml.fnStart <= SkipSpace(buf) {
        QwenFnRead(d.xml, d.qwenLiteral, calls, buf, ext);
      } else {
        QwenFnRejects(d.xml, d.qwenLiteral, calls, buf, ext);
      }
    }
  }

  lemma QwenFnRejectsStep(s: Snap)
    requires var t := SkipSpace(s.buf);
             BadHead(s.buf, s.d.xml.fnStart) || (!(s.d.xml.fnStart <= t) && !Partial(t, s.d.xml.fnStart))
    requires s.state == StQwenFn
    requires Valid(s)
    ensures Rejects(s, 0)
  {
    hide Valid, Rejects, WellFormed, XmlWellFormed, SkipSpace, Partial, SpotFails, BadHead;
    QwenFnFails(s.d, s.read, s.buf, s.final);
    XmlFails(s);
  }

  lemma QwenFnSpots(s: Snap, n: nat)
    requires s.state == StQwenParam && Belongs(s.d, s.state)
    ensures IsXmlState(s.state) && Belongs(s.d, StQwenAfterFn) && InCall(s.state) == InCall(StQwenAfterFn)
    ensures SpotOf(s) == AtQwenParams(s.read, s.name, s.ps) &&
            SpotOf(Advanced(s, n, StQwenAfterFn)) == AtQwenFnEnd(s.read, s.name, s.ps)
  {
    hide WellFormed, XmlWellFormed, BlockOf;
  }

  lemma QwenFnClosesStep(s: Snap, n: nat)
    requires s.d.xml.fnEnd <= SkipSpace(s.buf) && n == |s.buf| - |AfterTag(s.buf, s.d.xml.fnEnd)|
    requires s.state == StQwenParam
    requires Valid(s)
    ensures Stepped(s, Advanced(s, n, StQwenAfterFn), [])
  {
    hide Stepped, Valid, SpotsAgree, WellFormed, XmlWellFormed, AfterTag, SkipSpace, SpotOf, Advanced, Belongs,
         InCall, OpenBooks;
    InDialect(s);
    QwenFnSpots(s, n);
    XmlTagsNonEmpty(s.d.xml);
    QwenFnCloseScan(s.d, s.read, s.name, s.ps, s.buf, n, s.final);
    AdvancedStep(s, n, StQwenAfterFn, AtQwenParams(s.read, s.name, s.ps), AtQwenFnEnd(s.read, s.name, s.ps));
  }

  lemma QwenFnCloseScan(d: Reader, calls: seq<Call>, name: string, ps: seq<Param>, buf: string, n: nat, final: bool)
    requires d.xml.fnEnd <= SkipSpace(buf) && n == |buf| - |AfterTag(buf, d.xml.fnEnd)|
    ensures SpotsAgree(d, AtQwenParams(calls, name, ps), buf, AtQwenFnEnd(calls, name, ps), From(buf, n), final)
  {
    hide Stepped, WellFormed, XmlWellFormed, QwenFnEnd, QwenParams, SkipSpace;
    AfterTagIs(buf, d.xml.fnEnd);
    forall ext: string
      ensures ScanFrom(d, AtQwenParams(calls, name, ps), buf + ext) ==
              ScanFrom(d, AtQwenFnEnd(calls, name, ps), buf[n..] + ext)
    {
      QwenFnCloses(d.xml, d.qwenLiteral, calls, name, ps, buf, ext);
    }
  }

  lemma QwenParamStep(s: Snap, gt: nat, n: nat, key: string)
    requires HeadAt(s.buf, s.d.xml.paramStart, gt, n, key)
    requires s.state == StQwenParam
    requires Valid(s)
    ensures Stepped(s, Keyed(s, n, key, StQwenParamValue), [])
  {
    hide Stepped, Valid, OpenBooks, SpotsAgree, WellFormed, XmlWellFormed, HeadAt;
    InDialect(s);
    QwenParamScan(s.d, s.read, s.name, s.ps, s.buf, gt, n, key, s.final);
    assert Stepped(s, Keyed(s, n, key, StQwenParamValue), []) by {
      hide SpotOf;
      KeyedBooks(s, n, key, StQwenParamValue);
      XmlStep(s, Keyed(s, n, key, StQwenParamValue), n);
    }
  }

  lemma QwenParamScan(d: Reader, calls: seq<Call>, name: string, ps: seq<Param>, buf: string, gt: nat, n: nat,
          key: string, final: bool)
    requires HeadAt(buf, d.xml.paramStart, gt, n, key)
    ensures 0 < n <= |buf| && SpotsAgree(d, AtQwenParams(calls, name, ps), buf, AtQwenValue(calls, name, ps, key),
                                         From(buf, n), final)
  {
    hide Stepped, WellFormed, XmlWellFormed, QwenValue, QwenParams, TrimSpace, IndexAngle, SkipSpace;
    HeadRest(buf, d.xml.paramStart, gt, n, key);
    forall ext: string
      ensures ScanFrom(d, AtQwenParams(calls, name, ps), buf + ext) ==
              ScanFrom(d, AtQwenValue(calls, name, ps, key), buf[n..] + ext)
    {
      QwenParamRead(d.xml, d.qwenLiteral, calls, name, ps, buf, ext);
    }
  }

  lemma QwenParamsFail(d: Reader, calls: seq<Call>, name: string, ps: seq<Param>, buf: string, final: bool)
    requires var t := SkipSpace(buf);
             || BadHead(buf, d.xml.paramStart)
             || (!(d.xml.fnEnd <= t) && !(d.xml.paramStart <= t) && !Partial(t, d.xml.fnEnd) &&
                 !Partial(t, d.xml.paramStart))
    ensures SpotFails(d, AtQwenParams(calls, name, ps), buf, buf, final)
  {
    hide WellFormed, XmlWellFormed, QwenValue, QwenParams, AfterTag, SkipSpace, TrimSpace, IndexAngle, Partial;
    forall ext: string ensures ScanFrom(d, AtQwenParams(calls, name, ps), buf + ext) == Bad(buf + ext) {
      if d.xml.paramStart <= SkipSpace(buf) {
        QwenParamRead(d.xml, d.qwenLiteral, calls, name, ps, buf, ext);
      } else {
        QwenParamsReject(d.xml, d.qwenLiteral, calls, name, ps, buf, ext);
      }
    }
  }

  lemma QwenParamsRejectStep(s: Snap)
    requires var t := SkipSpace(s.buf);
             || BadHead(s.buf, s.d.xml.paramStart)
             || (!(s.d.xml.fnEnd <= t) && !(s.d.xml.paramStart <= t) && !Partial(t, s.d.xml.fnEnd) &&
                 !Partial(t, s.d.xml.paramStart))
    requires s.state == StQwenParam
    requires Valid(s)
    ensures Rejects(s, 0)
  {
    hide Valid, Rejects, WellFormed, XmlWellFormed, SkipSpace, Partial, SpotFails, BadHead;
    QwenParamsFail(s.d, s.read, s.name, s.ps, s.buf, s.final);
    XmlFails(s);
  }

  lemma QwenValueStep(s: Snap, end: nat, n: nat, p: Param)
    requires end == Index(s.buf, s.d.xml.paramEnd) && n == end + |s.d.xml.paramEnd| <= |s.buf|
    requires p == QwenParam(s.d.xml, s.d.qwenLiteral, s.paramName, Until(s.buf, end))
    requires s.state == StQwenParamValue
    requires Valid(s)
    ensures Stepped(s, ArgumentTaken(s, n, p, StQwenParam), [])
  {
    hide Stepped, Valid, OpenBooks, WellFormed, XmlWellFormed, QwenValue, QwenParams, Index, QwenParam, SetArg,
         Fragment, SkipSpace, GlmName, SpotsAgree;
    DialectOf(s);
    XmlTagsNonEmpty(s.d.xml);
    ArgumentTakenBooks(s, n, p, StQwenParam);
    QwenValueScan(s.d, s.read, s.name, s.ps, s.paramName, s.buf, s.final);
    XmlStep(s, ArgumentTaken(s, n, p, StQwenParam), n);
  }

  lemma QwenValueScan(d: Reader, calls: seq<Call>, name: string, ps: seq<Param>, key: string, buf: string, final: bool)
    requires 0 <= Index(buf, d.xml.paramEnd)
    ensures var end := Index(buf, d.xml.paramEnd);
            SpotsAgree(d, AtQwenValue(calls, name, ps, key), buf,
                       AtQwenParams(calls, name, ps + [QwenParam(d.xml, d.qwenLiteral, key, Until(buf, end))]),
                       From(buf, end + |d.xml.paramEnd|), final)
  {
    hide Stepped, WellFormed, XmlWellFormed, QwenValue, QwenParams, Index, QwenParam;
    var end := Index(buf, d.xml.paramEnd);
    var p := QwenParam(d.xml, d.qwenLiteral, key, buf[..end]);
    var rest := buf[end + |d.xml.paramEnd|..];
    forall ext: string
      ensures ScanFrom(d, AtQwenValue(calls, name, ps, key), buf + ext) ==
              ScanFrom(d, AtQwenParams(calls, name, ps + [p]), rest + ext)
    {
      QwenValueRead(d.xml, d.qwenLiteral, calls, name, ps, key, buf, ext);
    }
  }

  lemma QwenCloseSpots(s: Snap, n: nat, arguments: string)
    requires s.state == StQwenAfterFn && IsXml(s.d.dialect) && s.d.dialect == Qwen && s.calls != []
    ensures IsXmlState(s.state) && InCall(s.state) && !InCall(StQwenAfterCall) && Belongs(s.d, s.state) &&
            Belongs(s.d, StQwenAfterCall)
    ensures SpotOf(s) == AtQwenFnEnd(s.read, s.name, s.ps)
    ensures SpotOf(CallLeft(s, n, arguments, StQwenAfterCall)) == AtQwenEnd(s.read + [Call(s.name, s.ps)])
  {}

  lemma QwenCallClosesStep(s: Snap, n: nat)
    requires s.d.xml.callEnd <= SkipSpace(s.buf) && n == |s.buf| - |AfterTag(s.buf, s.d.xml.callEnd)| && s.calls != []
    requires s.state == StQwenAfterFn
    requires Valid(s)
    ensures Stepped(s, CallLeft(s, n, BuildJson(s.d.json, s.args), StQwenAfterCall), [])
  {
    hide Stepped, Valid, OpenBooks, SpotsAgree, WellFormed, XmlWellFormed, AfterTag, SkipSpace, BuildJson, SpotOf,
         CallLeft, Belongs, InCall;
    assert s.d.dialect == Qwen && IsXml(s.d.dialect) by {
      DialectOf(s);
    }
    QwenCloseSpots(s, n, BuildJson(s.d.json, s.args));
    XmlTagsNonEmpty(s.d.xml);
    QwenCallCloseScan(s.d, s.read, s.name, s.ps, s.buf, n, s.final);
    CallLeftStep(s, n, StQwenAfterCall, AtQwenFnEnd(s.read, s.name, s.ps), AtQwenEnd(s.read + [Call(s.name, s.ps)]));
  }

  lemma QwenCallCloseScan(d: Reader, calls: seq<Call>, name: string, ps: seq<Param>, buf: string, n: nat, final: bool)
    requires d.xml.callEnd <= SkipSpace(buf) && n == |buf| - |AfterTag(buf, d.xml.callEnd)|
    ensures SpotsAgree(d, AtQwenFnEnd(calls, name, ps), buf, AtQwenEnd(calls + [Call(name, ps)]), From(buf, n), final)
  {
    hide Stepped, WellFormed, XmlWellFormed, QwenFnEnd, QwenAfter, SkipSpace;
    AfterTagIs(buf, d.xml.callEnd);
    forall ext: string
      ensures ScanFrom(d, AtQwenFnEnd(calls, name, ps), buf + ext) ==
              ScanFrom(d, AtQwenEnd(calls + [Call(name, ps)]), buf[n..] + ext)
    {
      QwenCallCloses(d.xml, d.qwenLiteral, calls, name, ps, buf, ext);
    }
  }

  lemma QwenFnEndRejectsStep(s: Snap)
    requires !(s.d.xml.callEnd <= SkipSpace(s.buf)) && !Partial(SkipSpace(s.buf), s.d.xml.callEnd)
    requires s.state == StQwenAfterFn
    requires Valid(s)
    ensures Rejects(s, 0)
  {
    hide Stepped, Valid, Rejects, WellFormed, XmlWellFormed, QwenFnEnd, SkipSpace, Partial, Index, ScanBody;
    forall ext: string ensures ScanFrom(s.d, SpotOf(s), s.buf + ext) == Bad(s.buf + ext) {
      QwenFnEndRejects(s.d.xml, s.d.qwenLiteral, s.read, s.name, s.ps, s.buf, ext);
    }
    XmlFails(s);
  }

  // ----- after a call -----

  predicate IsAfterCall(s: State) {
    s == StGlmAfterCall || s == StQwenAfterCall
  }

  lemma GlmNextSpots(s: Snap, n: nat)
    requires s.state == StGlmAfterCall && Belongs(s.d, s.state)
    ensures IsXmlState(s.state) && Belongs(s.d, StGlmName) && InCall(s.state) == InCall(StGlmName)
    ensures SpotOf(s) == AtGlmEnd(s.read) && SpotOf(Advanced(s, n, StGlmName)) == AtGlmName(s.read)
  {}

  lemma GlmNextCallStep(s: Snap, n: nat)
    requires s.d.xml.callStart <= SkipSpace(s.buf) && n == |s.buf| - |AfterTag(s.buf, s.d.xml.callStart)|
    requires s.state == StGlmAfterCall
    requires Valid(s)
    ensures Stepped(s, Advanced(s, n, StGlmName), [])
  {
    hide Stepped, Valid, SpotsAgree, WellFormed, XmlWellFormed, AfterTag, SkipSpace, SpotOf, Advanced, Belongs,
         InCall, OpenBooks;
    InDialect(s);
    GlmNextSpots(s, n);
    XmlTagsNonEmpty(s.d.xml);
    GlmNextScan(s.d, s.read, s.buf, n, s.final);
    AdvancedStep(s, n, StGlmName, AtGlmEnd(s.read), AtGlmName(s.read));
  }

  lemma QwenNextSpots(s: Snap, n: nat)
    requires s.state == StQwenAfterCall && Belongs(s.d, s.state)
    ensures IsXmlState(s.state) && Belongs(s.d, StQwenFn) && InCall(s.state) == InCall(StQwenFn)
    ensures SpotOf(s) == AtQwenEnd(s.read) && SpotOf(Advanced(s, n, StQwenFn)) == AtQwenFn(s.read)
  {
    hide WellFormed, XmlWellFormed, BlockOf;
  }

  lemma QwenNextCallStep(s: Snap, n: nat)
    requires s.d.xml.callStart <= SkipSpace(s.buf) && n == |s.buf| - |AfterTag(s.buf, s.d.xml.callStart)|
    requires s.state == StQwenAfterCall
    requires Valid(s)
    ensures Stepped(s, Advanced(s, n, StQwenFn), [])
  {
    hide Stepped, Valid, SpotsAgree, WellFormed, XmlWellFormed, AfterTag, SkipSpace, SpotOf, Advanced, Belongs,
         InCall, OpenBooks;
    InDialect(s);
    QwenNextSpots(s, n);
    XmlTagsNonEmpty(s.d.xml);
    QwenNextScan(s.d, s.read, s.buf, n, s.final);
    AdvancedStep(s, n, StQwenFn, AtQwenEnd(s.read), AtQwenFn(s.read));
  }

  lemma GlmNextScan(d: Reader, calls: seq<Call>, buf: string, n: nat, final: bool)
    requires d.xml.callStart <= SkipSpace(buf) && n == |buf| - |AfterTag(buf, d.xml.callStart)|
    ensures SpotsAgree(d, AtGlmEnd(calls), buf, AtGlmName(calls), From(buf, n), final)
  {
    hide Stepped, WellFormed, XmlWellFormed, SkipSpace, GlmName, GlmAfter;
    AfterTagIs(buf, d.xml.callStart);
    forall ext: string
      ensures ScanFrom(d, AtGlmEnd(calls), buf + ext) == ScanFrom(d, AtGlmName(calls), buf[n..] + ext)
    {
      GlmNextCall(d.xml, calls, buf, ext);
    }
  }

  lemma QwenNextScan(d: Reader, calls: seq<Call>, buf: string, n: nat, final: bool)
    requires d.xml.callStart <= SkipSpace(buf) && n == |buf| - |AfterTag(buf, d.xml.callStart)|
    ensures SpotsAgree(d, AtQwenEnd(calls), buf, AtQwenFn(calls), From(buf, n), final)
  {
    hide Stepped, WellFormed, XmlWellFormed, SkipSpace, QwenFn, QwenAfter;
    AfterTagIs(buf, d.xml.callStart);
    forall ext: string
      ensures ScanFrom(d, AtQwenEnd(calls), buf + ext) == ScanFrom(d, AtQwenFn(calls), buf[n..] + ext)
    {
      QwenNextCall(d.xml, d.qwenLiteral, calls, buf, ext);
    }
  }

  lemma AfterCallStopsStep(s: Snap, n: nat, before: string)
    requires IsAfterCall(s.state) && EOS <= SkipSpace(s.buf) && n == |s.buf| - |SkipSpace(s.buf)| + |EOS| <= |s.buf|
    requires s.base <= s.marker <= |s.full| && before == Before(s)
    requires Valid(s)
    ensures Stepped(s, Accepted(s, n, before), s.pending)
  {
    assert IsXmlState(s.state) && !InCall(s.state) && (IsGlmState(s.state) || IsQwenState(s.state));
    assert IsGlmState(s.state) <==> s.state == StGlmAfterCall;
    assert IsQwenState(s.state) <==> s.state == StQwenAfterCall;
    hide Tracked, Stepped, Valid, Meaning, Shape, OpenBooks, Consumed, WellFormed, XmlWellFormed, SkipSpace, Accepted,
         Books, PhaseOf, Agree, Unambiguous, Faithful, ContentOf, IsXmlState, InCall, IsGlmState, IsQwenState;
    ValidFacts(s);
    DialectOf(s);
    AcceptedIs(s, n, before);
    AcceptedBooks(s, n, before);
    AfterCallStopAgrees(s, Accepted(s, n, before));
    StaysTracked(s, Accepted(s, n, before));
    PhaseMove(s, Accepted(s, n, before), s.pending);
  }

  lemma AfterCallStopAgrees(s: Snap, t: Snap)
    requires IsAfterCall(s.state) && EOS <= SkipSpace(s.buf) && t.state == StDone
    requires Shape(s) && s.base <= s.marker <= |s.full| && Shape(t) && t.base <= t.marker <= |t.full|
    requires t.outcome == Verdict(Before(s), Some(s.read)) && !s.implicit
    requires IsXml(s.d.dialect) && (s.state == StGlmAfterCall <==> s.d.dialect == Glm)
    ensures Agree(s.d, PhaseOf(s), s.buf, PhaseOf(t), t.buf, s.final)
  {
    hide Stepped, Meaning, Shape, Consumed, WellFormed, XmlWellFormed, SkipSpace;
    var before := s.full[s.base..s.marker];
    assert SpotOf(s) == AfterCall(s.d, s.read);
    forall ext: string ensures Meaning(s.d, PhaseOf(s), s.buf + ext) == Meaning(s.d, PhaseOf(t), t.buf + ext) {
      AfterCallStops(s.d, Consumed(s), before, s.read, s.buf, ext);
      DoneMeans(s.d, t.outcome, t.buf + ext);
    }
  }

  lemma AfterCallRejectsStep(s: Snap)
    requires var t := SkipSpace(s.buf);
             && t != "" && !(s.d.xml.callStart <= t) && !(EOS <= t)
             && (s.final || (!Partial(t, s.d.xml.callStart) && !Partial(t, EOS)))
    requires IsAfterCall(s.state)
    requires Valid(s)
    ensures Rejects(s, 0)
  {
    hide Tracked, Stepped, Rejects, Valid, Shape, OpenBooks, Consumed, WellFormed, XmlWellFormed, SkipSpace, Partial,
         Agree, PhaseOf, RawOf;
    ValidFacts(s);
    DialectOf(s);
    AfterCallRejectAgrees(s);
    NoneTracked(s);
    RawHere(s);
  }

  /** Nothing is tracked in the XML dialects. */
  lemma NoneTracked(s: Snap)
    requires IsXmlState(s.state) && IsXml(s.d.dialect)
    ensures Tracked(s) ==> Tracked(RawOf(s))
  {
    hide Tracked, Shown, ScanFrom, SpotOf;
    RawTracked(s, RawOf(s));
  }

  lemma AfterCallRejectAgrees(s: Snap)
    requires var t := SkipSpace(s.buf);
             && t != "" && !(s.d.xml.callStart <= t) && !(EOS <= t)
             && (s.final || (!Partial(t, s.d.xml.callStart) && !Partial(t, EOS)))
    requires IsAfterCall(s.state) && IsXml(s.d.dialect) && (IsGlmState(s.state) <==> s.d.dialect == Glm) && !s.implicit
    requires s.base <= s.marker <= |s.full|
    ensures Agree(s.d, PhaseOf(s), s.buf, Raw(Consumed(s)), s.buf, s.final)
  {
    hide Meaning, Consumed, WellFormed, XmlWellFormed, SkipSpace, Partial, Index, ScanBlock, GlmName;
    assert SpotOf(s) == AfterCall(s.d, s.read);
    forall ext: string | s.final ==> ext == ""
      ensures Meaning(s.d, PhaseOf(s), s.buf + ext) == Meaning(s.d, Raw(Consumed(s)), s.buf + ext)
    {
      NoCallStays(s.d.xml, s.buf, ext, s.final);
      AfterCallRejects(s.d, Consumed(s), Before(s), s.read, s.buf + ext);
    }
  }

  lemma NoCallStays(x: XmlSyntax, buf: string, ext: string, final: bool)
    requires var t := SkipSpace(buf);
             && t != "" && !(x.callStart <= t) && !(EOS <= t) &&
                (final || (!Partial(t, x.callStart) && !Partial(t, EOS)))
    requires final ==> ext == ""
    ensures var t := SkipSpace(buf + ext); t != "" && !(x.callStart <= t) && !(EOS <= t)
  {
    hide Partial, XmlWellFormed;
    SkipSpaceExtends(buf, ext);
    if final {
      assert buf + ext == buf;
    } else {
      StaysUnpartial(SkipSpace(buf), x.callStart, ext);
      StaysUnpartial(SkipSpace(buf), EOS, ext);
    }
  }

  // ----- waiting -----

  /** While a tag or a value is still arriving; with no more input, the block is only content. */
  lemma XmlWaits(s: Snap)
    requires IsXmlState(s.state) && Quiet(s)
    requires Valid(s)
    ensures Stepped(s, s, [])
  {
    hide Valid, Quiet, WellFormed, XmlWellFormed;
    Waits(s);
  }

  lemma GlmWaits(s: Snap)
    requires match s.state
             case StGlmName =>
               var lt := Index(s.buf, "<");
               lt < 0 || (!NameEnds(s.d.xml, s.buf) &&
                   (Partial(From(s.buf, lt), s.d.xml.keyStart) || Partial(From(s.buf, lt), s.d.xml.callEnd)))
             case StGlmArgKey => KeyForming(s.d.xml, s.buf)
             case StGlmArgValue => Index(s.buf, s.d.xml.valueEnd) < 0
             case _ => false
    requires Valid(s)
    ensures Stepped(s, s, [])
  {
    hide Stepped, Valid, Index, WellFormed, XmlWellFormed, Partial, TrimSpace, SkipSpace, Unescape;
    XmlWaits(s);
  }

  /** A key element, or a tag in front of it, is still arriving. */
  predicate KeyForming(x: XmlSyntax, buf: string) {
    && !(x.callEnd <= buf)
    && if !(x.keyStart <= buf) then Partial(buf, x.keyStart) || Partial(buf, x.callEnd)
       else if !KeyComplete(x, buf) then true
       else KeyText(x, buf) != "" && !(x.valueStart <= AfterKey(x, buf)) && Partial(AfterKey(x, buf), x.valueStart)
  }

  lemma QwenWaits(s: Snap)
    requires var t := SkipSpace(s.buf);
             match s.state
             case StQwenFn => HeadForming(s.buf, s.d.xml.fnStart) ||
                 (!(s.d.xml.fnStart <= t) && Partial(t, s.d.xml.fnStart))
             case StQwenParam =>
               !(s.d.xml.fnEnd <= t)
               && (HeadForming(s.buf, s.d.xml.paramStart)
                   || (!(s.d.xml.paramStart <= t) && (Partial(t, s.d.xml.paramStart) || Partial(t, s.d.xml.fnEnd))))
             case StQwenParamValue => Index(s.buf, s.d.xml.paramEnd) < 0
             case StQwenAfterFn => !(s.d.xml.callEnd <= t) && Partial(t, s.d.xml.callEnd)
             case _ => false
    requires Valid(s)
    ensures Stepped(s, s, [])
  {
    hide Stepped, Valid, Index, WellFormed, XmlWellFormed, Partial, TrimSpace, SkipSpace, Unescape, IndexAngle;
    XmlWaits(s);
  }

  predicate HeadForming(buf: string, tag: string) {
    tag <= SkipSpace(buf) && IndexAngle(AfterTag(buf, tag)) < 0
  }

  lemma AfterCallWaits(s: Snap)
    requires IsAfterCall(s.state) && (s.final ==> SkipSpace(s.buf) == "") && AwaitsCall(s.d, SkipSpace(s.buf))
    requires Valid(s)
    ensures Stepped(s, s, [])
  {
    hide Stepped, Valid, WellFormed, XmlWellFormed, SkipSpace;
    XmlWaits(s);
  }
}
