/** The stream decoder's transitions. Each lemma says that a step taken on the buffered bytes `b`
    leaves the final verdict unchanged for the continuation `ext` of the input. */
module Transitions {
  import opened Text
  import opened ToolText
  import opened Markup
  import opened Calls
  import opened Grammar
  import opened Phases

  /** Consuming `n` bytes of the buffer moves an open block's scan along. */
  lemma BlockMoves(d: Reader, whole: string, before: string, implicit: bool, s: Spot, t: Spot, b: string, n: nat,
          ext: string)
    requires n <= |b| && ScanFrom(d, s, b + ext) == ScanFrom(d, t, b[n..] + ext)
    ensures Meaning(d, InBlock(whole, before, implicit, s), b + ext)
         == Meaning(d, InBlock(whole + b[..n], before, implicit, t), b[n..] + ext)
  {
    hide WellFormed;
    var scan := ScanFrom(d, s, b + ext);
    MoveAcross(whole, b, n, ext);
    assert Meaning(d, InBlock(whole, before, implicit, s), b + ext) ==
           Judge(d, whole + (b + ext), before, implicit, scan);
    assert Meaning(d, InBlock(whole + b[..n], before, implicit, t), b[n..] + ext)
        == Judge(d, whole + b[..n] + (b[n..] + ext), before, implicit, scan);
  }

  /** Bytes of white space in front of `b`. */
  function Spaces(b: string): (n: nat)
    ensures n <= |b|
  {
    |b| - |SkipSpace(b)|
  }

  lemma SpacesAre(b: string)
    ensures b[Spaces(b)..] == SkipSpace(b)
  {
    SkipSpaceIs(b);
  }

  // ----- tag openers -----

  datatype TagStart = No | PartialTag | Yes

  /** `classifyTagStart`. */
  function Classify(b: string, prefix: string): TagStart {
    if |b| < |prefix| then (if b <= prefix then PartialTag else No)
    else if !(prefix <= b) then No
    else if |b| == |prefix| then PartialTag
    else if b[|prefix|] == '>' || IsAsciiSpace(b[|prefix|]) then Yes
    else No
  }

  lemma ClassifyIsFinal(b: string, prefix: string, ext: string)
    ensures Classify(b, prefix) == Yes ==> OpensTag(b + ext, prefix)
    ensures Classify(b, prefix) == No ==> !OpensTag(b + ext, prefix)
    ensures Classify(b, prefix) != Yes ==> !OpensTag(b, prefix)
  {
    PrefixExtends(b, ext, prefix);
    if |b| > |prefix| {
      assert (b + ext)[|prefix|] == b[|prefix|];
    }
  }

  lemma NotPartialIsFinal(b: string, tag: string, ext: string)
    requires !(tag <= b) && !Partial(b, tag)
    ensures !(tag <= b + ext)
  {
    PrefixExtends(b, ext, tag);
  }

  lemma CompleteIsFinal(b: string, tag: string, ext: string)
    requires tag <= b
    ensures tag <= b + ext && (b + ext)[|tag|..] == b[|tag|..] + ext
  {
    PrefixExtends(b, ext, tag);
    DropAppend(b, ext, |tag|);
  }

  // ----- leaving plain content -----

  lemma ApartIsFinal(b: string, t: string, u: string, ext: string)
    requires t <= b && Apart(t, u)
    ensures !(u <= b + ext)
  {
    var k :| 0 <= k < |t| && k < |u| && t[k] != u[k];
    assert (b + ext)[k] == t[k];
  }

  lemma {:induction false} ToolStartPersists(table: seq<Syntax>, b: string, ext: string, syn: Syntax)
    requires ToolStartAt(table, b) == Opens(syn, false)
    requires forall i :: 0 <= i < |table| ==> table[i] == syn || Apart(syn.toolStart, table[i].toolStart)
    ensures ToolStartAt(table, b + ext) == Opens(syn, false)
    ensures syn in table && syn.toolStart <= b
  {
    PrefixExtends(b, ext, table[0].toolStart);
    if !(table[0].toolStart <= b) {
      ToolStartPersists(table[1..], b, ext, syn);
      ApartIsFinal(b, syn.toolStart, table[0].toolStart, ext);
    }
  }

  lemma {:induction false} InvokePersists(table: seq<Syntax>, b: string, ext: string, syn: Syntax)
    requires InvokeAt(table, b) == Opens(syn, true)
    requires forall i :: 0 <= i < |table| ==> table[i] == syn || Apart(syn.invokeStart, table[i].invokeStart)
    ensures InvokeAt(table, b + ext) == Opens(syn, true)
    ensures syn in table && OpensTag(b, syn.invokeStart)
  {
    var t := table[0].invokeStart;
    PrefixExtends(b, ext, t);
    if OpensTag(b, t) {
      assert (b + ext)[|t|] == b[|t|];
    } else {
      InvokePersists(table[1..], b, ext, syn);
      ApartIsFinal(b, syn.invokeStart, t, ext);
    }
  }

  lemma {:induction false} NoToolStart(table: seq<Syntax>, b: string, t: string)
    requires t <= b && forall i :: 0 <= i < |table| ==> Apart(t, table[i].toolStart)
    ensures ToolStartAt(table, b) == NoMarker
  {
    if table != [] {
      ApartIsFinal(b, t, table[0].toolStart, "");
      assert b + "" == b;
      NoToolStart(table[1..], b, t);
    }
  }

  lemma {:induction false} ToolStartKinds(table: seq<Syntax>, b: string)
    ensures ToolStartAt(table, b).NoMarker? || (ToolStartAt(table, b).Opens? && !ToolStartAt(table, b).implicit)
  {
    if table != [] {
      ToolStartKinds(table[1..], b);
    }
  }

  lemma {:induction false} InvokeKinds(table: seq<Syntax>, b: string)
    ensures InvokeAt(table, b).NoMarker? || (InvokeAt(table, b).Opens? && InvokeAt(table, b).implicit)
  {
    if table != [] {
      InvokeKinds(table[1..], b);
    }
  }

  lemma UnlikeEosIsFinal(b: string, t: string, ext: string)
    requires t <= b && UnlikeEos(t)
    ensures !(EOS <= b + ext)
  {
    EosIsOpener();
    assert (b + ext)[1] == t[1] && (b + ext)[4] == t[4];
  }

  /** A block opener at the front of the buffer is one whatever follows. */
  lemma OpenerPersists(d: Reader, b: string, ext: string, syn: Syntax, implicit: bool)
    requires Unambiguous(d.table) && MarkerAt(d, b) == Opens(syn, implicit)
    ensures MarkerAt(d, b + ext) == Opens(syn, implicit)
    ensures syn in d.table && (if implicit then OpensTag(b, syn.invokeStart) else syn.toolStart <= b)
  {
    hide XmlWellFormed;
    ToolStartKinds(d.table, b);
    InvokeKinds(d.table, b);
    if !implicit {
      ToolStartFound(d.table, b);
      ToolStartPersists(d.table, b, ext, syn);
      UnlikeEosIsFinal(b, syn.toolStart, ext);
    } else {
      InvokeFound(d.table, b);
      InvokePersists(d.table, b, ext, syn);
      UnlikeEosIsFinal(b, syn.invokeStart, ext);
      var i :| 0 <= i < |d.table| && d.table[i] == syn;
      forall j | 0 <= j < |d.table| ensures Apart(syn.invokeStart, d.table[j].toolStart) {
        ApartIsSymmetric(d.table[j].toolStart, d.table[i].invokeStart);
      }
      PrefixExtends(b, ext, syn.invokeStart);
      NoToolStart(d.table, b + ext, syn.invokeStart);
    }
  }

  lemma ApartIsSymmetric(t: string, u: string)
    requires Apart(t, u)
    ensures Apart(u, t)
  {}

  lemma {:induction false} ToolStartFound(table: seq<Syntax>, b: string)
    requires ToolStartAt(table, b) != NoMarker
    ensures ToolStartAt(table, b).Opens? && ToolStartAt(table, b).syn in table
  {
    if !(table[0].toolStart <= b) {
      ToolStartFound(table[1..], b);
    }
  }

  lemma {:induction false} InvokeFound(table: seq<Syntax>, b: string)
    requires InvokeAt(table, b) != NoMarker
    ensures InvokeAt(table, b).Opens? && InvokeAt(table, b).syn in table
  {
    if !OpensTag(b, table[0].invokeStart) {
      InvokeFound(table[1..], b);
    }
  }

  /** The buffer holds plain content up to `n`, where a marker begins: nothing before `n` can become one. */
  predicate FirstMarker(d: Reader, b: string, n: nat) {
    n < |b| && b[n] == '<' && MarkerAt(d, b[n..]) != NoMarker && forall j ::
        0 <= j < n ==> MarkerAt(d, b[j..]) == NoMarker
  }

  lemma FirstMarkerIsFinal(d: Reader, b: string, ext: string, n: nat)
    requires FirstMarker(d, b, n) && MarkerAt(d, (b + ext)[n..]) != NoMarker
    ensures NextMarker(d, b + ext) == n
  {
    forall j | 0 <= j < n ensures MarkerAt(d, (b + ext)[j..]) == NoMarker {
      assert b[n] == '<';
      SettledTextIsContent(d, b, ext, j);
    }
    NextMarkerIs(d, b + ext, n);
  }

  /** The end-of-sentence token ends the content. */
  lemma ContentStops(d: Reader, text: string, b: string, ext: string, n: nat)
    requires FirstMarker(d, b, n) && EOS <= b[n..]
    ensures Meaning(d, Content(text), b + ext) == Verdict(text + b[..n], None)
  {
    DropAppend(b, ext, n);
    CompleteIsFinal(b[n..], EOS, ext);
    FirstMarkerIsFinal(d, b, ext, n);
  }

  /** Where the content of a block opened at `n` is cut: two line breaks in front belong to the block. */
  function RawStart(b: string, n: nat): (raw: nat)
    requires n <= |b|
    ensures raw <= n
  {
    if n >= 2 && b[n - 2..n] == "\n\n" then n - 2 else n
  }

  function OpenedBlock(d: Reader, syn: Syntax, implicit: bool): Block {
    Block(syn, implicit, d.json, true)
  }

  /** The phase after the opener at `n`; an implicit block has no wrapper to consume. */
  function Opened(d: Reader, text: string, b: string, n: nat, syn: Syntax, implicit: bool): Phase
    requires n <= |b|
  {
    var block := OpenedBlock(d, syn, implicit);
    InBlock(text + b[..RawStart(b, n)], text + b[..n], implicit, if implicit then AtBlock(block, [])
        else AtOpening(block))
  }

  /** A block opener ends the content and opens its block. */
  lemma ContentOpens(d: Reader, text: string, b: string, ext: string, n: nat, syn: Syntax, implicit: bool)
    requires Unambiguous(d.table) && FirstMarker(d, b, n) && MarkerAt(d, b[n..]) == Opens(syn, implicit)
    ensures Meaning(d, Content(text), b + ext) ==
            Meaning(d, Opened(d, text, b, n, syn, implicit), b[RawStart(b, n)..] + ext)
  {
    hide Judge, ScanBlock, ToolStartAt, InvokeAt, NextMarker;
    DropAppend(b, ext, n);
    OpenerPersists(d, b[n..], ext, syn, implicit);
    FirstMarkerIsFinal(d, b, ext, n);
    var scan := ScanOpened(d, syn, implicit, b[n..] + ext);
    assert Decide(d, b + ext) == DecideAt(d, b + ext, n);
    assert DecideAt(d, b + ext, n) == Judge(d, b + ext, b[..n], implicit, scan);
    JudgeShifts(d, text, b + ext, b[..n], implicit, scan);
    OpenedScan(d, b, ext, n, syn, implicit);
    var raw := RawStart(b, n);
    MoveAcross(text, b, raw, ext);
  }

  lemma OpenedScan(d: Reader, b: string, ext: string, n: nat, syn: Syntax, implicit: bool)
    requires n < |b| && b[n] == '<'
    ensures var rest := b[RawStart(b, n)..] + ext;
            ScanOpened(d, syn, implicit, b[n..] + ext) ==
            if implicit then ScanBlock(OpenedBlock(d, syn, implicit), rest, [])
            else ScanBlock(OpenedBlock(d, syn, implicit), AfterOpening(syn, rest), [])
  {
    var rest := b[RawStart(b, n)..] + ext;
    if RawStart(b, n) == n {
      assert rest[0] == '<';
    } else {
      assert rest[..2] == b[n - 2..n];
      assert rest[2..] == b[n..] + ext;
      if implicit {
        assert "\n\n" <= rest ==> SkipSpace(rest) == SkipSpace(rest[2..]) by {
          if "\n\n" <= rest {
            assert rest[1..][1..] == rest[2..];
          }
        }
        BlockSkips(OpenedBlock(d, syn, implicit), rest, []);
        BlockSkips(OpenedBlock(d, syn, implicit), rest[2..], []);
      }
    }
  }

  /** A `<tool_call>` ends the content and begins the first call. */
  lemma ContentOpensXml(d: Reader, text: string, b: string, ext: string, n: nat, t: Spot)
    requires IsXml(d.dialect) && FirstMarker(d, b, n) && d.xml.callStart <= b[n..]
    requires t == if d.dialect == Glm then AtGlmName([]) else AtQwenFn([])
    ensures n + |d.xml.callStart| <= |b|
    ensures var k := n + |d.xml.callStart|;
            Meaning(d, Content(text), b + ext) ==
                Meaning(d, InBlock(text + b[..k], text + b[..n], false, t), b[k..] + ext)
  {
    hide Judge, GlmName, QwenFn, ToolStartAt, InvokeAt, NextMarker, ScanBlock, GlmValue;
    var k := n + |d.xml.callStart|;
    DropAppend(b, ext, n);
    CompleteIsFinal(b[n..], d.xml.callStart, ext);
    assert b[n..][|d.xml.callStart|..] == b[k..];
    UnlikeEosIsFinal(b[n..], d.xml.callStart, ext);
    FirstMarkerIsFinal(d, b, ext, n);
    var scan := ScanXml(d, b[k..] + ext);
    assert Decide(d, b + ext) == DecideAt(d, b + ext, n);
    assert DecideAt(d, b + ext, n) == Judge(d, b + ext, b[..n], false, scan);
    JudgeShifts(d, text, b + ext, b[..n], false, scan);
    MoveAcross(text, b, k, ext);
  }

  // ----- the block grammar -----

  lemma BlockSkips(b: Block, r: string, calls: seq<Call>)
    ensures ScanBlock(b, r, calls) == ScanBlock(b, SkipSpace(r), calls)
  {
    assert ScanBlock(b, r, calls) == BlockAt(b, SkipSpace(r), calls);
    SkipSpaceIdempotent(r);
    assert ScanBlock(b, SkipSpace(r), calls) == BlockAt(b, SkipSpace(SkipSpace(r)), calls);
  }

  lemma BodySkips(b: Block, r: string, calls: seq<Call>, name: string, ps: seq<Param>)
    ensures ScanBody(b, r, calls, name, ps) == ScanBody(b, SkipSpace(r), calls, name, ps)
  {
    assert ScanBody(b, r, calls, name, ps) == BodyAt(b, SkipSpace(r), calls, name, ps);
    SkipSpaceIdempotent(r);
    assert ScanBody(b, SkipSpace(r), calls, name, ps) == BodyAt(b, SkipSpace(SkipSpace(r)), calls, name, ps);
  }

  lemma OpeningConsumed(b: Block, buf: string, ext: string, n: nat)
    requires if "\n\n" <= buf then b.syn.toolStart <= buf[2..] && n == 2 + |b.syn.toolStart|
             else b.syn.toolStart <= buf && n == |b.syn.toolStart|
    ensures n <= |buf| && AfterOpening(b.syn, buf + ext) == buf[n..] + ext
  {
    DropAppend(buf, ext, n);
    PrefixExtends(buf, ext, "\n\n");
    if "\n\n" <= buf {
      DropAppend(buf, ext, 2);
      assert (buf + ext)[2..][n - 2..] == (buf + ext)[n..];
    } else {
      assert (buf + ext)[0] == '<';
    }
  }

  lemma BlockSpaces(b: Block, calls: seq<Call>, buf: string, ext: string)
    ensures ScanBlock(b, buf + ext, calls) == ScanBlock(b, SkipSpace(buf) + ext, calls)
  {
    SkipSpaceExtends(buf, ext);
    BlockSkips(b, buf + ext, calls);
    BlockSkips(b, SkipSpace(buf) + ext, calls);
  }

  lemma BodySpaces(b: Block, calls: seq<Call>, name: string, ps: seq<Param>, buf: string, ext: string)
    ensures ScanBody(b, buf + ext, calls, name, ps) == ScanBody(b, SkipSpace(buf) + ext, calls, name, ps)
  {
    SkipSpaceExtends(buf, ext);
    BodySkips(b, buf + ext, calls, name, ps);
    BodySkips(b, SkipSpace(buf) + ext, calls, name, ps);
  }

  lemma BlockCloses(b: Block, calls: seq<Call>, buf: string, ext: string)
    requires !b.implicit && b.syn.toolEnd <= buf
    ensures ScanBlock(b, buf + ext, calls) == Closed(calls, buf[|b.syn.toolEnd|..] + ext)
  {
    CompleteIsFinal(buf, b.syn.toolEnd, ext);
    assert (buf + ext)[0] == '<';
  }

  lemma InvokeOpens(b: Block, calls: seq<Call>, rest: string)
    requires OpensTag(rest, b.syn.invokeStart) && (b.implicit || !(b.syn.toolEnd <= rest))
    ensures ScanBlock(b, rest, calls) == ScanInvoke(b, rest, calls)
  {
    assert rest[0] == '<';
  }

  /** An implicit block ends at the first text that is no invoke. */
  lemma ImplicitCloses(b: Block, calls: seq<Call>, rest: string)
    requires SkipSpace(rest) == rest && b.implicit && calls != [] && !OpensTag(rest, b.syn.invokeStart)
    ensures ScanBlock(b, rest, calls) == Closed(calls, rest)
  {}

  lemma BlockRejects(b: Block, calls: seq<Call>, rest: string)
    requires SkipSpace(rest) == rest && !OpensTag(rest, b.syn.invokeStart)
    requires if b.implicit then calls == [] else !(b.syn.toolEnd <= rest)
    ensures ScanBlock(b, rest, calls) == Bad(rest)
  {}

  lemma HeaderExtends(buf: string, ext: string)
    requires Index(buf, ">") >= 0
    ensures Index(buf + ext, ">") == Index(buf, ">")
    ensures var n := Index(buf, ">") + 1; (buf + ext)[..n] == buf[..n] && (buf + ext)[n..] == buf[n..] + ext
  {
    IndexExtends(buf, ext, ">");
    DropAppend(buf, ext, Index(buf, ">") + 1);
  }

  lemma InvokeRead(b: Block, calls: seq<Call>, buf: string, ext: string)
    requires Index(buf, ">") >= 0
    ensures var n := Index(buf, ">") + 1;
            ScanInvoke(b, buf + ext, calls) ==
            match InvokeHeader(buf)
            case None => Bad(buf + ext)
            case Some(h) => ScanBody(b, buf[n..] + ext, calls, h.name, [])
  {
    hide ScanBody, Attr;
    HeaderExtends(buf, ext);
  }

  /** `</invoke>`: the call is recorded, or the block rejected for its arguments. */
  lemma InvokeCloses(b: Block, calls: seq<Call>, name: string, ps: seq<Param>, buf: string, ext: string)
    requires b.syn.invokeEnd <= buf
    ensures var rest := buf[|b.syn.invokeEnd|..] + ext;
            ScanBody(b, buf + ext, calls, name, ps) ==
            if b.json.valid(Arguments(b.json, ps, b.live)) then ScanBlock(b, rest, calls + [Call(name, ps)])
                else Bad(rest)
  {
    CompleteIsFinal(buf, b.syn.invokeEnd, ext);
    assert (buf + ext)[0] == '<';
  }

  lemma ParamOpens(b: Block, calls: seq<Call>, name: string, ps: seq<Param>, rest: string)
    requires OpensTag(rest, b.syn.paramStart) && !(b.syn.invokeEnd <= rest)
    ensures ScanBody(b, rest, calls, name, ps) == ScanParam(b, rest, calls, name, ps)
  {
    assert rest[0] == '<';
  }

  lemma BodyRejects(b: Block, calls: seq<Call>, name: string, ps: seq<Param>, rest: string)
    requires SkipSpace(rest) == rest && !OpensTag(rest, b.syn.paramStart) && !(b.syn.invokeEnd <= rest)
    ensures ScanBody(b, rest, calls, name, ps) == Bad(rest)
  {}

  lemma ParamRead(b: Block, calls: seq<Call>, name: string, ps: seq<Param>, buf: string, ext: string)
    requires Index(buf, ">") >= 0
    ensures var n := Index(buf, ">") + 1;
            ScanParam(b, buf + ext, calls, name, ps) ==
            match ParamHeader(buf)
            case None => Bad(buf + ext)
            case Some(h) => ScanValue(b, buf[n..] + ext, calls, name, ps, h.name, h.isString)
  {
    HeaderExtends(buf, ext);
  }

  lemma ValueRead(b: Block, calls: seq<Call>, name: string, ps: seq<Param>, key: string, isString: bool, buf: string,
          ext: string)
    requires Index(buf, b.syn.paramEnd) >= 0
    ensures var end := Index(buf, b.syn.paramEnd);
            ScanValue(b, buf + ext, calls, name, ps, key, isString) ==
            ScanBody(b, buf[end + |b.syn.paramEnd|..] + ext, calls, name, ps +
                [BlockParam(b.syn, key, buf[..end], isString)])
  {
    var end := Index(buf, b.syn.paramEnd);
    IndexExtends(buf, ext, b.syn.paramEnd);
    DropAppend(buf, ext, end);
    DropAppend(buf, ext, end + |b.syn.paramEnd|);
  }

  // ----- the end of a block -----

  lemma AtEndIsJudged(d: Reader, whole: string, before: string, implicit: bool, calls: seq<Call>, rest: string)
    ensures Meaning(d, InBlock(whole, before, implicit, AtEnd(calls)), rest)
         == JudgeEnd(d, whole + rest, before, implicit, calls, rest, SkipSpace(rest))
  {
    hide JudgeEnd, SkipSpace, Decide, ScanBlock;
    assert ScanFrom(d, AtEnd(calls), rest) == Closed(calls, rest);
  }

  /** White space after a block does not matter to its verdict. */
  lemma EndSpaces(d: Reader, whole: string, before: string, implicit: bool, calls: seq<Call>, buf: string, ext: string)
    requires !IsXml(d.dialect)
    ensures Meaning(d, InBlock(whole, before, implicit, AtEnd(calls)), buf + ext)
         == Meaning(d, InBlock(whole + buf[..Spaces(buf)], before, implicit, AtEnd(calls)), SkipSpace(buf) + ext)
  {
    hide Meaning, SkipSpace, CutAfter;
    var n := Spaces(buf);
    SpacesAre(buf);
    SkipSpaceExtends(buf, ext);
    MoveAcross(whole, buf, n, ext);
    AtEndIsJudged(d, whole, before, implicit, calls, buf + ext);
    AtEndIsJudged(d, whole + buf[..n], before, implicit, calls, buf[n..] + ext);
  }

  lemma EndStops(d: Reader, whole: string, before: string, implicit: bool, calls: seq<Call>, buf: string, ext: string)
    requires EOS <= buf
    ensures Meaning(d, InBlock(whole, before, implicit, AtEnd(calls)), buf + ext) == Verdict(before, Some(calls))
  {
    CompleteIsFinal(buf, EOS, ext);
    StartsWithTag(buf + ext, EOS);
    assert Meaning(d, InBlock(whole, before, implicit, AtEnd(calls)), buf + ext)
        == JudgeEnd(d, whole + (buf + ext), before, implicit, calls, buf + ext, buf + ext);
  }

  lemma StartsWithTag(s: string, t: string)
    requires t != "" && t[0] == '<' && t <= s
    ensures SkipSpace(s) == s
  {
    assert s[0] == '<';
  }

  lemma EndRejects(d: Reader, whole: string, before: string, implicit: bool, calls: seq<Call>, rest: string)
    requires !IsXml(d.dialect) && SkipSpace(rest) == rest && rest != "" && !(EOS <= rest)
    ensures Meaning(d, InBlock(whole, before, implicit, AtEnd(calls)), rest) == Meaning(d, Raw(whole), rest)
  {
    hide SkipSpace, UpToEos;
    assert Meaning(d, InBlock(whole, before, implicit, AtEnd(calls)), rest)
        == JudgeEnd(d, whole + rest, before, implicit, calls, rest, rest);
    DropFront(whole, rest, 0);
  }

  // ----- GLM -----

  lemma StaysUnpartial(b: string, tag: string, ext: string)
    requires !(tag <= b) && !Partial(b, tag)
    ensures !(tag <= b + ext) && !Partial(b + ext, tag)
  {
    PrefixExtends(b, ext, tag);
    assert (b + ext)[..|b|] == b;
  }

  lemma GlmNameRead(x: XmlSyntax, calls: seq<Call>, buf: string, ext: string)
    requires Index(buf, "<") >= 0 && (x.keyStart <= buf[Index(buf, "<")..] || x.callEnd <= buf[Index(buf, "<")..])
    ensures var lt := Index(buf, "<");
            var name := TrimSpace(buf[..lt]);
            GlmName(x, buf + ext, calls) == if name == "" then Bad(buf + ext)
                else GlmArgs(x, buf[lt..] + ext, calls, name, [])
  {
    var lt := Index(buf, "<");
    IndexExtends(buf, ext, "<");
    DropAppend(buf, ext, lt);
    PrefixExtends(buf[lt..], ext, x.keyStart);
    PrefixExtends(buf[lt..], ext, x.callEnd);
  }

  lemma GlmNameRejects(x: XmlSyntax, calls: seq<Call>, buf: string, ext: string)
    requires Index(buf, "<") >= 0
    requires var r := buf[Index(buf, "<")..];
             !(x.keyStart <= r) && !(x.callEnd <= r) && !Partial(r, x.keyStart) && !Partial(r, x.callEnd)
    ensures GlmName(x, buf + ext, calls) == Bad(buf + ext)
  {
    var lt := Index(buf, "<");
    IndexExtends(buf, ext, "<");
    DropAppend(buf, ext, lt);
    StaysUnpartial(buf[lt..], x.keyStart, ext);
    StaysUnpartial(buf[lt..], x.callEnd, ext);
  }

  lemma GlmCallCloses(x: XmlSyntax, calls: seq<Call>, name: string, ps: seq<Param>, buf: string, ext: string)
    requires x.callEnd <= buf
    ensures GlmArgs(x, buf + ext, calls, name, ps) == GlmAfter(x, buf[|x.callEnd|..] + ext, calls + [Call(name, ps)])
  {
    CompleteIsFinal(buf, x.callEnd, ext);
  }

  lemma GlmArgsReject(x: XmlSyntax, calls: seq<Call>, name: string, ps: seq<Param>, buf: string, ext: string)
    requires !(x.callEnd <= buf) && !(x.keyStart <= buf) && !Partial(buf, x.keyStart) && !Partial(buf, x.callEnd)
    ensures GlmArgs(x, buf + ext, calls, name, ps) == Bad(buf + ext)
  {
    StaysUnpartial(buf, x.keyStart, ext);
    StaysUnpartial(buf, x.callEnd, ext);
  }

  predicate KeyComplete(x: XmlSyntax, b: string) {
    x.keyStart <= b && Index(b[|x.keyStart|..], x.keyEnd) >= 0
  }

  function KeyText(x: XmlSyntax, b: string): string {
    if !KeyComplete(x, b) then ""
        else Unescape(TrimSpace(b[|x.keyStart|..][..Index(b[|x.keyStart|..], x.keyEnd)]), x.keyEnd)
  }

  /** What follows a complete `<arg_key>`, white space skipped. */
  function AfterKey(x: XmlSyntax, b: string): (r: string)
    ensures |r| <= |b|
  {
    if !KeyComplete(x, b) then "" else SkipSpace(b[|x.keyStart|..][Index(b[|x.keyStart|..], x.keyEnd) + |x.keyEnd|..])
  }

  lemma AfterKeyIs(x: XmlSyntax, b: string)
    requires KeyComplete(x, b)
    ensures AfterKey(x, b) == b[|b| - |AfterKey(x, b)|..]
  {
    hide SkipSpace, Index, XmlWellFormed;
    SkipSpaceIs(b[|x.keyStart|..][Index(b[|x.keyStart|..], x.keyEnd) + |x.keyEnd|..]);
  }

  lemma KeyIsAt(x: XmlSyntax, r: string, body: string, end: int)
    requires x.keyStart <= r && body == r[|x.keyStart|..] && end == Index(body, x.keyEnd) && 0 <= end
    ensures KeyComplete(x, r) && end + |x.keyEnd| <= |body|
    ensures KeyText(x, r) == Unescape(TrimSpace(body[..end]), x.keyEnd) &&
            AfterKey(x, r) == SkipSpace(body[end + |x.keyEnd|..])
  {
    hide Index, TrimSpace, Unescape, SkipSpace, XmlWellFormed;
  }

  lemma KeyIs(x: XmlSyntax, r: string)
    ensures KeyComplete(x, r) <==> x.keyStart <= r && Index(r[|x.keyStart|..], x.keyEnd) >= 0
    ensures KeyComplete(x, r) ==>
              var b := r[|x.keyStart|..];
              var end := Index(b, x.keyEnd);
              KeyText(x, r) == Unescape(TrimSpace(b[..end]), x.keyEnd) &&
                  AfterKey(x, r) == SkipSpace(b[end + |x.keyEnd|..])
  {
    hide Index, TrimSpace, Unescape, SkipSpace, XmlWellFormed, KeyText, AfterKey;
    if KeyComplete(x, r) {
      KeyIsAt(x, r, r[|x.keyStart|..], Index(r[|x.keyStart|..], x.keyEnd));
    }
  }

  lemma KeyExtends(x: XmlSyntax, b: string, ext: string)
    requires KeyComplete(x, b)
    ensures KeyComplete(x, b + ext) && !(x.callEnd <= b + ext)
    ensures KeyText(x, b + ext) == KeyText(x, b)
    ensures AfterKey(x, b) != "" ==> AfterKey(x, b + ext) == AfterKey(x, b) + ext
  {
    hide Index, Unescape, TrimSpace, SkipSpace, Apart, KeyText, AfterKey, XmlWellFormed;
    KeyApart(x);
    ApartIsFinal(b, x.keyStart, x.callEnd, ext);
    assert
      && x.keyStart <= b + ext && (b + ext)[|x.keyStart|..] == b[|x.keyStart|..] + ext
      && (var body := b[|x.keyStart|..];
          var end := Index(body, x.keyEnd);
          && end + |x.keyEnd| <= |body| && Index(body + ext, x.keyEnd) == end && (body + ext)[..end] == body[..end]
          && (body + ext)[end + |x.keyEnd|..] == body[end + |x.keyEnd|..] + ext) by {
      CompleteIsFinal(b, x.keyStart, ext);
      var body := b[|x.keyStart|..];
      IndexExtends(body, ext, x.keyEnd);
      DropAppend(body, ext, Index(body, x.keyEnd) + |x.keyEnd|);
    }
    var body := b[|x.keyStart|..];
    var end := Index(body, x.keyEnd);
    KeyIsAt(x, b, body, end);
    KeyIsAt(x, b + ext, body + ext, end);
    assert AfterKey(x, b) != "" ==> AfterKey(x, b + ext) == AfterKey(x, b) + ext by {
      SkipSpaceExtends(body[end + |x.keyEnd|..], ext);
    }
  }

  lemma KeyApart(x: XmlSyntax)
    ensures Apart(x.keyStart, x.callEnd)
  {}

  /** `GlmArgs` at a complete key. */
  lemma GlmKeySteps(x: XmlSyntax, calls: seq<Call>, name: string, ps: seq<Param>, b: string)
    requires KeyComplete(x, b) && !(x.callEnd <= b)
    ensures GlmArgs(x, b, calls, name, ps) ==
            if KeyText(x, b) == "" then Bad(b)
            else if x.valueStart <= AfterKey(x, b) then
                GlmValue(x, AfterKey(x, b)[|x.valueStart|..], calls, name, ps, KeyText(x, b))
            else Bad(if Partial(AfterKey(x, b), x.valueStart) then "" else b)
  {}

  lemma GlmKeyRejects(x: XmlSyntax, calls: seq<Call>, name: string, ps: seq<Param>, buf: string, ext: string)
    requires KeyComplete(x, buf)
    requires KeyText(x, buf) == "" || (!(x.valueStart <= AfterKey(x, buf)) && !Partial(AfterKey(x, buf), x.valueStart))
    ensures GlmArgs(x, buf + ext, calls, name, ps) == Bad(buf + ext)
  {
    KeyExtends(x, buf, ext);
    GlmKeySteps(x, calls, name, ps, buf + ext);
    if KeyText(x, buf) != "" {
      StaysUnpartial(AfterKey(x, buf), x.valueStart, ext);
    }
  }

  lemma GlmKeyRead(x: XmlSyntax, calls: seq<Call>, name: string, ps: seq<Param>, buf: string, ext: string)
    requires KeyComplete(x, buf) && KeyText(x, buf) != "" && x.valueStart <= AfterKey(x, buf)
    ensures GlmArgs(x, buf + ext, calls, name, ps) ==
            GlmValue(x, AfterKey(x, buf)[|x.valueStart|..] + ext, calls, name, ps, KeyText(x, buf))
  {
    KeyExtends(x, buf, ext);
    GlmKeySteps(x, calls, name, ps, buf + ext);
    CompleteIsFinal(AfterKey(x, buf), x.valueStart, ext);
  }

  lemma GlmValueRead(x: XmlSyntax, calls: seq<Call>, name: string, ps: seq<Param>, key: string, buf: string,
          ext: string)
    requires Index(buf, x.valueEnd) >= 0
    ensures var end := Index(buf, x.valueEnd);
            var v := Unescape(buf[..end], x.valueEnd);
            GlmValue(x, buf + ext, calls, name, ps, key) ==
            GlmArgs(x, buf[end + |x.valueEnd|..] + ext, calls, name, ps + [Param(key, v, v, true)])
  {
    var end := Index(buf, x.valueEnd);
    IndexExtends(buf, ext, x.valueEnd);
    DropAppend(buf, ext, end);
    DropAppend(buf, ext, end + |x.valueEnd|);
  }

  // ----- Qwen -----

  lemma IndexAngleExtends(b: string, ext: string)
    requires IndexAngle(b) >= 0
    ensures IndexAngle(b + ext) == IndexAngle(b)
    ensures var gt := IndexAngle(b);
            (b + ext)[gt] == b[gt] && (b + ext)[..gt] == b[..gt] && (b + ext)[gt + 1..] == b[gt + 1..] + ext
  {
    var gt := IndexAngle(b);
    assert (b + ext)[gt] == b[gt];
    assert forall j :: 0 <= j < gt ==> (b + ext)[j] == b[j];
    DropAppend(b, ext, gt);
    DropAppend(b, ext, gt + 1);
  }

  /** A skipped buffer that begins with `tag`, cut after it. */
  function AfterTag(b: string, tag: string): (r: string)
    ensures |r| <= |b| && (tag <= SkipSpace(b) ==> |r| + |tag| <= |b|)
  {
    if tag <= SkipSpace(b) then SkipSpace(b)[|tag|..] else ""
  }

  lemma AfterTagIs(b: string, tag: string)
    requires tag <= SkipSpace(b)
    ensures AfterTag(b, tag) == b[|b| - |AfterTag(b, tag)|..]
  {
    hide SkipSpace;
    SkipSpaceIs(b);
  }

  lemma AfterTagExtends(b: string, tag: string, ext: string)
    requires tag != "" && tag <= SkipSpace(b)
    ensures tag <= SkipSpace(b + ext) && AfterTag(b + ext, tag) == AfterTag(b, tag) + ext
    ensures SkipSpace(b + ext) == SkipSpace(b) + ext
  {
    SkipSpaceExtends(b, ext);
    CompleteIsFinal(SkipSpace(b), tag, ext);
  }

  lemma SkippedStaysUnpartial(b: string, tag: string, ext: string)
    requires tag != "" && !(tag <= SkipSpace(b)) && !Partial(SkipSpace(b), tag)
    ensures !(tag <= SkipSpace(b + ext)) && !Partial(SkipSpace(b + ext), tag)
  {
    SkipSpaceExtends(b, ext);
    StaysUnpartial(SkipSpace(b), tag, ext);
  }

  lemma QwenFnRead(x: XmlSyntax, literal: string -> bool, calls: seq<Call>, buf: string, ext: string)
    requires x.fnStart <= SkipSpace(buf) && IndexAngle(AfterTag(buf, x.fnStart)) >= 0
    ensures var body := AfterTag(buf, x.fnStart);
            var gt := IndexAngle(body);
            var name := TrimSpace(body[..gt]);
            QwenFn(x, literal, buf + ext, calls) ==
            if body[gt] != '>' || name == "" then Bad(buf + ext)
                else QwenParams(x, literal, body[gt + 1..] + ext, calls, name, [])
  {
    AfterTagExtends(buf, x.fnStart, ext);
    IndexAngleExtends(AfterTag(buf, x.fnStart), ext);
  }

  lemma QwenFnRejects(x: XmlSyntax, literal: string -> bool, calls: seq<Call>, buf: string, ext: string)
    requires !(x.fnStart <= SkipSpace(buf)) && !Partial(SkipSpace(buf), x.fnStart)
    ensures QwenFn(x, literal, buf + ext, calls) == Bad(buf + ext)
  {
    SkippedStaysUnpartial(buf, x.fnStart, ext);
  }

  lemma QwenFnCloses(x: XmlSyntax, literal: string -> bool, calls: seq<Call>, name: string, ps: seq<Param>,
          buf: string, ext: string)
    requires x.fnEnd <= SkipSpace(buf)
    ensures QwenParams(x, literal, buf + ext, calls, name, ps) ==
            QwenFnEnd(x, literal, AfterTag(buf, x.fnEnd) + ext, calls, name, ps)
  {
    AfterTagExtends(buf, x.fnEnd, ext);
  }

  lemma QwenParamsReject(x: XmlSyntax, literal: string -> bool, calls: seq<Call>, name: string, ps: seq<Param>,
          buf: string, ext: string)
    requires var t := SkipSpace(buf);
             !(x.fnEnd <= t) && !(x.paramStart <= t) && !Partial(t, x.fnEnd) && !Partial(t, x.paramStart)
    ensures QwenParams(x, literal, buf + ext, calls, name, ps) == Bad(buf + ext)
  {
    SkippedStaysUnpartial(buf, x.fnEnd, ext);
    SkippedStaysUnpartial(buf, x.paramStart, ext);
  }

  lemma QwenParamRead(x: XmlSyntax, literal: string -> bool, calls: seq<Call>, name: string, ps: seq<Param>,
          buf: string, ext: string)
    requires x.paramStart <= SkipSpace(buf) && IndexAngle(AfterTag(buf, x.paramStart)) >= 0
    ensures var body := AfterTag(buf, x.paramStart);
            var gt := IndexAngle(body);
            var key := TrimSpace(body[..gt]);
            QwenParams(x, literal, buf + ext, calls, name, ps) ==
            if body[gt] != '>' || key == "" then Bad(buf + ext)
                else QwenValue(x, literal, body[gt + 1..] + ext, calls, name, ps, key)
  {
    hide SkipSpace, QwenFnEnd;
    AfterTagExtends(buf, x.paramStart, ext);
    ApartIsFinal(SkipSpace(buf), x.paramStart, x.fnEnd, ext);
    IndexAngleExtends(AfterTag(buf, x.paramStart), ext);
  }

  lemma QwenValueRead(x: XmlSyntax, literal: string -> bool, calls: seq<Call>, name: string, ps: seq<Param>,
          key: string, buf: string, ext: string)
    requires Index(buf, x.paramEnd) >= 0
    ensures var end := Index(buf, x.paramEnd);
            QwenValue(x, literal, buf + ext, calls, name, ps, key) ==
            QwenParams(x, literal, buf[end + |x.paramEnd|..] + ext, calls, name, ps +
                [QwenParam(x, literal, key, buf[..end])])
  {
    hide XmlWellFormed, QwenParams;
    var end := Index(buf, x.paramEnd);
    IndexExtends(buf, ext, x.paramEnd);
    DropAppend(buf, ext, end);
    DropAppend(buf, ext, end + |x.paramEnd|);
  }

  lemma QwenCallCloses(x: XmlSyntax, literal: string -> bool, calls: seq<Call>, name: string, ps: seq<Param>,
          buf: string, ext: string)
    requires x.callEnd <= SkipSpace(buf)
    ensures QwenFnEnd(x, literal, buf + ext, calls, name, ps) ==
            QwenAfter(x, literal, AfterTag(buf, x.callEnd) + ext, calls + [Call(name, ps)])
  {
    AfterTagExtends(buf, x.callEnd, ext);
  }

  lemma QwenFnEndRejects(x: XmlSyntax, literal: string -> bool, calls: seq<Call>, name: string, ps: seq<Param>,
          buf: string, ext: string)
    requires !(x.callEnd <= SkipSpace(buf)) && !Partial(SkipSpace(buf), x.callEnd)
    ensures QwenFnEnd(x, literal, buf + ext, calls, name, ps) == Bad(buf + ext)
  {
    SkippedStaysUnpartial(buf, x.callEnd, ext);
  }

  // ----- after a call of the XML dialects -----

  /** The spot after a call. */
  function AfterCall(d: Reader, calls: seq<Call>): Spot {
    if d.dialect == Glm then AtGlmEnd(calls) else AtQwenEnd(calls)
  }

  lemma GlmNextCall(x: XmlSyntax, calls: seq<Call>, buf: string, ext: string)
    requires x.callStart <= SkipSpace(buf)
    ensures GlmAfter(x, buf + ext, calls) == GlmName(x, AfterTag(buf, x.callStart) + ext, calls)
  {
    hide GlmName, SkipSpace;
    AfterTagExtends(buf, x.callStart, ext);
  }

  lemma QwenNextCall(x: XmlSyntax, literal: string -> bool, calls: seq<Call>, buf: string, ext: string)
    requires x.callStart <= SkipSpace(buf)
    ensures QwenAfter(x, literal, buf + ext, calls) == QwenFn(x, literal, AfterTag(buf, x.callStart) + ext, calls)
  {
    hide QwenFn, SkipSpace;
    AfterTagExtends(buf, x.callStart, ext);
  }

  lemma AfterCallEnds(d: Reader, calls: seq<Call>, rest: string)
    requires !(d.xml.callStart <= SkipSpace(rest))
    ensures ScanFrom(d, AfterCall(d, calls), rest) == Closed(calls, rest)
  {
    hide GlmName, QwenFn, SkipSpace, ScanBlock, ScanBody, ScanInvoke, ScanParam, ScanValue, GlmArgs, GlmValue,
         QwenParams, QwenValue, QwenFnEnd;
  }

  lemma EosIsNoCall(x: XmlSyntax, t: string)
    requires EOS <= t
    ensures !(x.callStart <= t)
  {
    EosIsOpener();
    assert t[1] == EOS[1] && t[4] == EOS[4];
  }

  lemma AfterCallStops(d: Reader, whole: string, before: string, calls: seq<Call>, buf: string, ext: string)
    requires IsXml(d.dialect) && EOS <= SkipSpace(buf)
    ensures Meaning(d, InBlock(whole, before, false, AfterCall(d, calls)), buf + ext) == Verdict(before, Some(calls))
  {
    hide SkipSpace, Meaning, ScanFrom, CutAfter, WellFormed, XmlWellFormed;
    AfterTagExtends(buf, EOS, ext);
    var t := SkipSpace(buf + ext);
    EosIsNoCall(d.xml, t);
    AfterCallIsJudged(d, whole, before, calls, buf + ext);
    assert JudgeEnd(d, whole + (buf + ext), before, false, calls, buf + ext, t) == Verdict(before, Some(calls));
  }

  lemma AfterCallIsJudged(d: Reader, whole: string, before: string, calls: seq<Call>, rest: string)
    requires !(d.xml.callStart <= SkipSpace(rest))
    ensures Meaning(d, InBlock(whole, before, false, AfterCall(d, calls)), rest)
         == JudgeEnd(d, whole + rest, before, false, calls, rest, SkipSpace(rest))
  {
    hide JudgeEnd, SkipSpace, ScanFrom, Decide, XmlWellFormed;
    AfterCallEnds(d, calls, rest);
  }

  lemma AfterCallRejects(d: Reader, whole: string, before: string, calls: seq<Call>, rest: string)
    requires IsXml(d.dialect) && SkipSpace(rest) != "" && !(d.xml.callStart <= SkipSpace(rest)) &&
             !(EOS <= SkipSpace(rest))
    ensures Meaning(d, InBlock(whole, before, false, AfterCall(d, calls)), rest) == Meaning(d, Raw(whole), rest)
  {
    hide GlmName, QwenFn, SkipSpace, UpToEos, GlmAfter, QwenAfter;
    AfterCallEnds(d, calls, rest);
    assert Meaning(d, InBlock(whole, before, false, AfterCall(d, calls)), rest)
        == JudgeEnd(d, whole + rest, before, false, calls, rest, SkipSpace(rest));
    DropFront(whole, rest, 0);
  }

  // ----- raw text -----

  lemma RawStops(d: Reader, text: string, b: string, ext: string)
    requires Index(b, EOS) >= 0
    ensures Meaning(d, Raw(text), b + ext) == Verdict(text + b[..Index(b, EOS)], None)
  {
    IndexExtends(b, ext, EOS);
    DropAppend(b, ext, Index(b, EOS));
  }

  /** Raw text may be shown up to settled bytes: no end-of-sentence token can start in it. */
  lemma RawEmits(d: Reader, text: string, b: string, ext: string, n: nat)
    requires n <= |b| && forall j :: 0 <= j < n ==> !(EOS <= (b + ext)[j..])
    ensures Meaning(d, Raw(text), b + ext) == Meaning(d, Raw(text + b[..n]), b[n..] + ext)
  {
    var s := b[n..] + ext;
    assert b + ext == b[..n] + s;
    assert UpToEos(b[..n] + s) == b[..n] + UpToEos(s) by {
      IndexShifts(b[..n], s, EOS);
      var i := Index(s, EOS);
      if i >= 0 {
        DropFront(b[..n], s, i);
      }
    }
    assert text + (b[..n] + UpToEos(s)) == text + b[..n] + UpToEos(s);
  }

  lemma {:induction false} IndexShifts(p: string, s: string, t: string)
    requires forall j :: 0 <= j < |p| ==> !(t <= (p + s)[j..])
    ensures Index(p + s, t) == if Index(s, t) < 0 then -1 else |p| + Index(s, t)
  {
    if p == [] {
      assert p + s == s;
    } else {
      assert (p + s)[0..] == p + s;
      assert (p + s)[1..] == p[1..] + s;
      forall j | 0 <= j < |p| - 1 ensures !(t <= (p[1..] + s)[j..]) {
        assert (p[1..] + s)[j..] == (p + s)[j + 1..];
      }
      IndexShifts(p[1..], s, t);
    }
  }

  // ----- reasoning -----

  lemma ThinkingEnds(d: Reader, b: string, ext: string)
    requires Index(b, THINK_END) >= 0
    ensures Meaning(d, Thinking, b + ext) == Meaning(d, Content(""), b[Index(b, THINK_END) + |THINK_END|..] + ext)
  {
    hide Decide, Index;
    var n := Index(b, THINK_END) + |THINK_END|;
    IndexExtends(b, ext, THINK_END);
    DropAppend(b, ext, n);
    var v := Decide(d, b[n..] + ext);
    assert DecideThinking(d, b + ext) == v;
    assert "" + v.content == v.content;
    assert Prepend("", v) == v;
    assert Meaning(d, Content(""), b[n..] + ext) == Prepend("", v);
  }

  /** Reasoning may be shown up to bytes in which no `</think>` can start. */
  lemma ThinkingEmits(d: Reader, p: string, s: string)
    requires forall j :: 0 <= j < |p| ==> !(THINK_END <= (p + s)[j..])
    ensures Meaning(d, Thinking, p + s) == Meaning(d, Thinking, s)
  {
    hide Decide, Index;
    IndexShifts(p, s, THINK_END);
    var i := Index(s, THINK_END);
    if i >= 0 {
      var n := i + |THINK_END|;
      DropFront(p, s, n);
      assert DecideThinking(d, s) == Decide(d, s[n..]);
      assert DecideThinking(d, p + s) == Decide(d, (p + s)[|p| + n..]);
    } else {
      assert DecideThinking(d, s) == Verdict("", None);
    }
  }
}
