/** What each state of the stream decoder means: the verdict it will reach on any continuation of
    the input. The lemmas below are the decoder's transitions, each valid whatever input follows. */
module Phases {
  import opened Text
  import opened ToolText
  import opened Markup
  import opened Calls
  import opened Grammar

  /** Where in the grammar a scan stands: what it has read of the block, of the call, of the argument. */
  datatype Spot =
    | AtOpening(b: Block)
    | AtBlock(b: Block, calls: seq<Call>)
    | AtInvoke(b: Block, calls: seq<Call>)
    | AtBody(b: Block, calls: seq<Call>, name: string, ps: seq<Param>)
    | AtParam(b: Block, calls: seq<Call>, name: string, ps: seq<Param>)
    | AtValue(b: Block, calls: seq<Call>, name: string, ps: seq<Param>, key: string, isString: bool)
    | AtEnd(calls: seq<Call>)
    | AtGlmName(calls: seq<Call>)
    | AtGlmArgs(calls: seq<Call>, name: string, ps: seq<Param>)
    | AtGlmValue(calls: seq<Call>, name: string, ps: seq<Param>, key: string)
    | AtGlmEnd(calls: seq<Call>)
    | AtQwenFn(calls: seq<Call>)
    | AtQwenParams(calls: seq<Call>, name: string, ps: seq<Param>)
    | AtQwenValue(calls: seq<Call>, name: string, ps: seq<Param>, key: string)
    | AtQwenFnEnd(calls: seq<Call>, name: string, ps: seq<Param>)
    | AtQwenEnd(calls: seq<Call>)

  /** The scan of `rest` from a spot. */
  function ScanFrom(d: Reader, s: Spot, rest: string): Scan {
    match s
    case AtOpening(b) => ScanBlock(b, AfterOpening(b.syn, rest), [])
    case AtBlock(b, calls) => ScanBlock(b, rest, calls)
    case AtInvoke(b, calls) => ScanInvoke(b, rest, calls)
    case AtBody(b, calls, name, ps) => ScanBody(b, rest, calls, name, ps)
    case AtParam(b, calls, name, ps) => ScanParam(b, rest, calls, name, ps)
    case AtValue(b, calls, name, ps, key, isString) => ScanValue(b, rest, calls, name, ps, key, isString)
    case AtEnd(calls) => Closed(calls, rest)
    case AtGlmName(calls) => GlmName(d.xml, rest, calls)
    case AtGlmArgs(calls, name, ps) => GlmArgs(d.xml, rest, calls, name, ps)
    case AtGlmValue(calls, name, ps, key) => GlmValue(d.xml, rest, calls, name, ps, key)
    case AtGlmEnd(calls) => GlmAfter(d.xml, rest, calls)
    case AtQwenFn(calls) => QwenFn(d.xml, d.qwenLiteral, rest, calls)
    case AtQwenParams(calls, name, ps) => QwenParams(d.xml, d.qwenLiteral, rest, calls, name, ps)
    case AtQwenValue(calls, name, ps, key) => QwenValue(d.xml, d.qwenLiteral, rest, calls, name, ps, key)
    case AtQwenFnEnd(calls, name, ps) => QwenFnEnd(d.xml, d.qwenLiteral, rest, calls, name, ps)
    case AtQwenEnd(calls) => QwenAfter(d.xml, d.qwenLiteral, rest, calls)
  }

  /** The decoder's phase: reasoning, content shown so far, a block opened after `before` with `whole`
      consumed, raw text, or the verdict once reached. */
  datatype Phase =
    | Thinking
    | Content(text: string)
    | InBlock(whole: string, before: string, implicit: bool, spot: Spot)
    | Raw(text: string)
    | Done(verdict: Verdict)

  function Prepend(p: string, v: Verdict): Verdict {
    Verdict(p + v.content, v.calls)
  }

  /** The verdict on a text whose reasoning is still open: it ends at the first `</think>`. */
  function DecideThinking(d: Reader, s: string): Verdict {
    var i := Index(s, THINK_END);
    if i < 0 then Verdict("", None) else Decide(d, s[i + |THINK_END|..])
  }

  function DecideAll(d: Reader, thinking: bool, s: string): Verdict {
    if thinking then DecideThinking(d, s) else Decide(d, s)
  }

  function AfterOpening(syn: Syntax, rest: string): string {
    if "\n\n" <= rest then DropPrefix(rest[2..], syn.toolStart) else DropPrefix(rest, syn.toolStart)
  }

  /** The final verdict when `rest` is all the input still to come. */
  function Meaning(d: Reader, ph: Phase, rest: string): Verdict {
    match ph
    case Thinking => DecideThinking(d, rest)
    case Content(text) => Prepend(text, Decide(d, rest))
    case InBlock(whole, before, implicit, spot) => Judge(d, whole + rest, before, implicit, ScanFrom(d, spot, rest))
    case Raw(text) => Verdict(text + UpToEos(rest), None)
    case Done(v) => v
  }

  // ----- plain content -----

  /** A line break or `<` after position `j` of the buffer, or more than a marker's length of text. */
  predicate Settled(b: string, j: nat) {
    j + 64 < |b| || exists k :: j < k < |b| && (b[k] == '<' || b[k] == '\n')
  }

  lemma EosIsOpener()
    ensures IsOpener(EOS) && |EOS| == 27
  {}

  /** No marker begins with anything but `<`. */
  lemma NoMarkerInFront(d: Reader, s: string)
    requires s != "" && s[0] != '<'
    ensures MarkerAt(d, s) == NoMarker
  {
    EosIsOpener();
    if !IsXml(d.dialect) {
      NoOpenerInFront(d.table, s);
    }
  }

  lemma {:induction false} NoOpenerInFront(table: seq<Syntax>, s: string)
    requires s != "" && s[0] != '<'
    ensures ToolStartAt(table, s) == NoMarker && InvokeAt(table, s) == NoMarker
  {
    if table != [] {
      NoOpenerInFront(table[1..], s);
    }
  }

  lemma OpenerStaysAbsent(b: string, ext: string, j: nat, t: string)
    requires IsOpener(t) && j <= |b| && Settled(b, j)
    ensures t <= (b + ext)[j..] ==> t <= b[j..]
  {
    DropAppend(b, ext, j);
    PrefixExtends(b[j..], ext, t);
    if j + |t| > |b| {
      var k :| j < k < |b| && (b[k] == '<' || b[k] == '\n');
      assert t[1..][k - j - 1] == t[k - j];
      assert b[k] == (b + ext)[j..][k - j];
    }
  }

  lemma TagStaysAbsent(b: string, ext: string, j: nat, t: string)
    requires IsOpener(t) && j <= |b| && Settled(b, j)
    ensures OpensTag((b + ext)[j..], t) ==> OpensTag(b[j..], t)
  {
    OpenerStaysAbsent(b, ext, j, t);
    DropAppend(b, ext, j);
    if j + |t| == |b| {
      var k :| j < k < |b| && (b[k] == '<' || b[k] == '\n');
      assert t[1..][k - j - 1] == t[k - j];
      assert b[k] == (b + ext)[j..][k - j] == b[j..][k - j];
      assert !(t <= b[j..]);
    } else if j + |t| < |b| {
      assert (b + ext)[j..][|t|] == b[j..][|t|];
    }
  }

  lemma {:induction false} ToolStartStaysAbsent(table: seq<Syntax>, b: string, ext: string, j: nat)
    requires j <= |b| && Settled(b, j) && ToolStartAt(table, b[j..]) == NoMarker
    ensures ToolStartAt(table, (b + ext)[j..]) == NoMarker
  {
    if table != [] {
      OpenerStaysAbsent(b, ext, j, table[0].toolStart);
      ToolStartStaysAbsent(table[1..], b, ext, j);
    }
  }

  lemma {:induction false} InvokeStaysAbsent(table: seq<Syntax>, b: string, ext: string, j: nat)
    requires j <= |b| && Settled(b, j) && InvokeAt(table, b[j..]) == NoMarker
    ensures InvokeAt(table, (b + ext)[j..]) == NoMarker
  {
    if table != [] {
      TagStaysAbsent(b, ext, j, table[0].invokeStart);
      InvokeStaysAbsent(table[1..], b, ext, j);
    }
  }

  /** No marker can still be forming in front of settled text. */
  lemma SettledTextIsContent(d: Reader, b: string, ext: string, j: nat)
    requires j <= |b| && Settled(b, j) && MarkerAt(d, b[j..]) == NoMarker
    ensures MarkerAt(d, (b + ext)[j..]) == NoMarker
  {
    EosIsOpener();
    OpenerStaysAbsent(b, ext, j, EOS);
    OpenerStaysAbsent(b, ext, j, d.xml.callStart);
    if !IsXml(d.dialect) {
      ToolStartStaysAbsent(d.table, b, ext, j);
      InvokeStaysAbsent(d.table, b, ext, j);
    }
  }

  lemma {:induction false} NextMarkerIs(d: Reader, s: string, n: nat)
    requires n <= |s| && forall j :: 0 <= j < n ==> MarkerAt(d, s[j..]) == NoMarker
    requires n == |s| || MarkerAt(d, s[n..]) != NoMarker
    ensures NextMarker(d, s) == n
  {
    assert s[0..] == s;
    if n > 0 {
      forall j | 0 <= j < n - 1 ensures MarkerAt(d, s[1..][j..]) == NoMarker {
        assert s[1..][j..] == s[j + 1..];
      }
      assert s[1..][n - 1..] == s[n..];
      NextMarkerIs(d, s[1..], n - 1);
    }
  }

  lemma {:induction false} NextMarkerIsFirst(d: Reader, s: string)
    ensures var n := NextMarker(d, s);
            && (forall j :: 0 <= j < n ==> MarkerAt(d, s[j..]) == NoMarker)
            && (n < |s| ==> MarkerAt(d, s[n..]) != NoMarker)
  {
    assert s[0..] == s;
    if s != [] && MarkerAt(d, s) == NoMarker {
      NextMarkerIsFirst(d, s[1..]);
      assert forall j :: 0 < j <= |s| ==> s[j..] == s[1..][j - 1..];
    }
  }

  lemma {:induction false} NextMarkerShifts(d: Reader, p: string, s: string)
    requires forall j :: 0 <= j < |p| ==> MarkerAt(d, (p + s)[j..]) == NoMarker
    ensures NextMarker(d, p + s) == |p| + NextMarker(d, s)
  {
    if p == [] {
      assert p + s == s;
    } else {
      assert (p + s)[0..] == p + s;
      assert (p + s)[1..] == p[1..] + s;
      forall j | 0 <= j < |p| - 1 ensures MarkerAt(d, (p[1..] + s)[j..]) == NoMarker {
        assert (p[1..] + s)[j..] == (p + s)[j + 1..];
      }
      NextMarkerShifts(d, p[1..], s);
    }
  }

  /** Content without a marker moves in front of the verdict. */
  lemma DecideShifts(d: Reader, p: string, s: string)
    requires forall j :: 0 <= j < |p| ==> MarkerAt(d, (p + s)[j..]) == NoMarker
    ensures Decide(d, p + s) == Prepend(p, Decide(d, s))
  {
    NextMarkerShifts(d, p, s);
    DecideShiftsWith(d, p, s, p + s, NextMarker(d, s), |p| + NextMarker(d, s));
  }

  lemma DecideShiftsWith(d: Reader, p: string, s: string, ps: string, n: nat, m: nat)
    requires ps == p + s && n <= |s| && m == |p| + n
    requires NextMarker(d, s) == n && NextMarker(d, ps) == m
    ensures Decide(d, ps) == Prepend(p, Decide(d, s))
  {
    hide DecideAt, NextMarker, XmlWellFormed;
    assert Decide(d, s) == DecideAt(d, s, n);
    assert Decide(d, ps) == DecideAt(d, ps, m);
    DecideAtShifts(d, p, s, n);
  }

  lemma DecideAtShifts(d: Reader, p: string, s: string, n: nat)
    requires n <= |s|
    ensures DecideAt(d, p + s, |p| + n) == Prepend(p, DecideAt(d, s, n))
  {
    assert (p + s)[..|p| + n] == p + s[..n];
    if n < |s| {
      assert (p + s)[|p| + n..] == s[n..];
      match MarkerAt(d, s[n..])
      case NoMarker =>
      case Stop =>
      case Opens(syn, implicit) => JudgeShifts(d, p, s, s[..n], implicit, ScanOpened(d, syn, implicit, s[n..]));
      case OpensXml => JudgeShifts(d, p, s, s[..n], false, ScanXml(d, DropPrefix(s[n..], d.xml.callStart)));
    }
  }

  lemma JudgeShifts(d: Reader, p: string, whole: string, before: string, implicit: bool, scan: Scan)
    requires scan.Bad? ==> |scan.at| <= |whole|
    requires scan.Closed? ==> |scan.rest| <= |whole|
    ensures Judge(d, p + whole, p + before, implicit, scan) == Prepend(p, Judge(d, whole, before, implicit, scan))
  {
    hide WellFormed;
    match scan
    case Bad(at) => CutShifts(p, whole, at);
    case Closed(calls, rest) =>
      CutShifts(p, whole, rest);
      CutShifts(p, whole, SkipSpace(rest));
      assert p + before + rest == p + (before + rest);
  }

  lemma CutShifts(p: string, whole: string, at: string)
    requires |at| <= |whole|
    ensures CutAfter(p + whole, at) == p + CutAfter(whole, at)
  {
    var n := |whole| - |at|;
    assert (p + whole)[..|p| + n] == p + whole[..n];
    assert p + whole[..n] + UpToEos(at) == p + (whole[..n] + UpToEos(at));
  }

  /** Emitting a settled prefix of the buffer as content. */
  lemma EmitSettled(d: Reader, text: string, b: string, ext: string, n: nat)
    requires n <= |b|
    requires forall j :: 0 <= j < n ==> MarkerAt(d, (b + ext)[j..]) == NoMarker
    ensures Meaning(d, Content(text), b + ext) == Meaning(d, Content(text + b[..n]), b[n..] + ext)
  {
    hide ScanBlock;
    assert b + ext == b[..n] + (b[n..] + ext);
    DecideShifts(d, b[..n], b[n..] + ext);
    var v := Decide(d, b[n..] + ext);
    assert Meaning(d, Content(text), b + ext) == Prepend(text, Prepend(b[..n], v));
    assert Meaning(d, Content(text + b[..n]), b[n..] + ext) == Prepend(text + b[..n], v);
    assert text + (b[..n] + v.content) == text + b[..n] + v.content;
  }
}
