/** Nothing but a spelling of calls is read (dsml/decode.go:264-390, dsml/stream.go:393-583): the texts in which a
    reader of blocks finds calls are exactly those that hold a spelled block in front of white space or the end of the
    sentence. */
module SpelledOnly {
  import opened Text
  import opened ToolText
  import opened Markup
  import opened Calls
  import opened Grammar
  import opened Phases
  import opened Transitions
  import opened Decode
  import opened Completion
  import opened RoundTrip
  import opened MessageRoundTrip
  import opened StreamVsBatch
  import opened BlockSpelling

  // ----- the spelling behind what a scan accepts -----

  /** A tag up to its first `>`. */
  lemma TagIsLoose(r: string, start: string) returns (t: Tag, rest: string)
    requires OpensTag(r, start) && Lacks(start, ">") && Index(r, ">") >= 0
    ensures IsTag(t) && t.Loose? && r == TagText(start, t) + rest
    ensures TagText(start, t) == r[..Index(r, ">") + 1] && rest == r[Index(r, ">") + 1..]
  {
    hide Index;
    var gt := Index(r, ">");
    IndexIsFirst(r, ">");
    assert r[gt..][0] == '>';
    assert forall j :: 0 <= j < |start| ==> r[j] == start[j];
    var head := r[|start|..gt];
    forall j | 0 <= j < gt ensures r[j] != '>' {
      assert r[j..] == [r[j]] + r[j + 1..];
    }
    t, rest := Loose(head), r[gt + 1..];
    assert r[..gt + 1] == start + head + ">";
  }

  /** A tag with a header is named. */
  lemma LooseIsNamed(r: string, start: string, t: Tag)
    requires t.Loose? && Index(r, ">") >= 0 && TagText(start, t) == r[..Index(r, ">") + 1]
    requires InvokeHeader(r).Some? || ParamHeader(r).Some?
    ensures NameOf(start, t) != ""
    ensures ParamHeader(r).Some? ==> ParamHeader(r).value.rest == r[Index(r, ">") + 1..]
  {
    hide Index, Attr, TagText;
  }

  lemma GapIn(r: string) returns (gap: string)
    ensures IsGap(gap) && r == gap + SkipSpace(r)
  {
    hide SkipSpace;
    SkipSpaceIs(r);
    SkipSpaceBlank(r);
    gap := r[..|r| - |SkipSpace(r)|];
  }

  /** In front of the first occurrence there is none. */
  lemma NoneInFront(s: string, p: string)
    requires p != "" && Index(s, p) >= 0
    ensures !Contains(s[..Index(s, p)], p)
  {
    hide Index;
    var a := s[..Index(s, p)];
    IndexIsFirst(s, p);
    IndexIsFirst(a, p);
    forall j | 0 <= j <= |a| ensures !(p <= a[j..]) {
      if j < |a| {
        assert s[j..] == a[j..] + s[|a|..];
        PrefixExtends(a[j..], s[|a|..], p);
      }
    }
  }

  /** A body that is read has a parameter in front, or its close tag. */
  lemma ParamIsRead(b: Block, t: string, calls: seq<Call>, name: string, ps: seq<Param>)
    requires ScanBody(b, t, calls, name, ps).Closed? && SkipSpace(t) == t && !(b.syn.invokeEnd <= t)
    ensures OpensTag(t, b.syn.paramStart) && Index(t, ">") >= 0 && ParamHeader(t).Some?
    ensures Index(ParamHeader(t).value.rest, b.syn.paramEnd) >= 0
  {
    hide ScanBody, WellFormed, Index, Attr, SkipSpace, OpensTag;
    BodySteps(b, t, calls, name, ps);
    ParamOpens(b, calls, name, ps, t);
  }

  /** What is read of a body before its close tag is a spelled parameter. */
  lemma ParamIsSpelled(b: Block, r: string, calls: seq<Call>, name: string, ps: seq<Param>)
      returns (p: SpelledParam, rest: string)
    requires Quotable(b.syn) && ScanBody(b, r, calls, name, ps).Closed? && !(b.syn.invokeEnd <= SkipSpace(r))
    ensures IsParam(b.syn, p) && r == ParamSpelled(b.syn, p) + rest && |rest| < |r|
  {
    hide ScanBody, WellFormed, Index, ParamHeader, SkipSpace, OpensTag, TagText, Contains, IsTag, NameOf;
    var t := SkipSpace(r);
    BodySkips(b, r, calls, name, ps);
    SkipSpaceIdempotent(r);
    ParamIsRead(b, t, calls, name, ps);
    var tag, value := TagIsLoose(t, b.syn.paramStart);
    LooseIsNamed(t, b.syn.paramStart, tag);
    var gap := GapIn(r);
    var end := Index(value, b.syn.paramEnd);
    TagsNonEmpty(b.syn);
    NoneInFront(value, b.syn.paramEnd);
    p, rest := SpelledParam(gap, tag, value[..end]), value[end + |b.syn.paramEnd|..];
    CutApart(value, b.syn.paramEnd);
    assert r == gap + (TagText(b.syn.paramStart, tag) + (value[..end] + b.syn.paramEnd + rest));
  }

  lemma CutApart(s: string, p: string)
    requires Index(s, p) >= 0
    ensures s == s[..Index(s, p)] + p + s[Index(s, p) + |p|..]
  {
    hide Index;
    IndexIsFirst(s, p);
  }

  /** What is read of a body is spelled parameters, white space and the close tag. */
  lemma {:induction false} BodyIsSpelled(b: Block, r: string, calls: seq<Call>, name: string, ps: seq<Param>)
      returns (qs: seq<SpelledParam>, end: string, rest: string)
    requires Quotable(b.syn) && ScanBody(b, r, calls, name, ps).Closed?
    ensures IsGap(end) && forall i :: 0 <= i < |qs| ==> IsParam(b.syn, qs[i])
    ensures r == ParamsSpelled(b.syn, qs) + end + b.syn.invokeEnd + rest && |rest| < |r|
    decreases |r|
  {
    hide ScanBody, WellFormed, SkipSpace, IsParam, ParamSpelled;
    TagsNonEmpty(b.syn);
    if b.syn.invokeEnd <= SkipSpace(r) {
      end := GapIn(r);
      qs, rest := [], SkipSpace(r)[|b.syn.invokeEnd|..];
    } else {
      var p, tail := ParamIsSpelled(b, r, calls, name, ps);
      ParamScans(b, p, calls, name, ps, tail);
      var others;
      others, end, rest := BodyIsSpelled(b, tail, calls, name, ps + [ParamOf(b.syn, p)]);
      qs := [p] + others;
      assert qs[1..] == others;
    }
  }

  /** What is read of a block in front of its end is a spelled call. */
  lemma CallIsSpelled(b: Block, r: string, calls: seq<Call>) returns (c: SpelledCall, rest: string)
    requires Quotable(b.syn) && ScanBlock(b, r, calls).Closed? && OpensTag(SkipSpace(r), b.syn.invokeStart)
    ensures IsCall(b.syn, c) && r == CallSpelled(b.syn, c) + rest && |rest| < |r|
  {
    hide ScanBlock, ScanBody, WellFormed, Index, Attr, SkipSpace, OpensTag, ParamsSpelled, IsParam, NameOf;
    var t := SkipSpace(r);
    BlockSkips(b, r, calls);
    SkipSpaceIdempotent(r);
    StartsInvoke(b.syn, t);
    BlockSteps(b, t, calls);
    assert InvokeHeader(t).Some?;
    var tag, body := TagIsLoose(t, b.syn.invokeStart);
    LooseIsNamed(t, b.syn.invokeStart, tag);
    var gap := GapIn(r);
    var qs, end, tail := BodyIsSpelled(b, body, calls, InvokeHeader(t).value.name, []);
    c, rest := SpelledCall(gap, tag, qs, end), tail;
  }

  /** What is read of a block is spelled calls, then white space and the close tag, or what is no call. */
  lemma {:induction false} CallsAreSpelled(b: Block, r: string, calls: seq<Call>)
      returns (cs: seq<SpelledCall>, gap: string, rest: string)
    requires Quotable(b.syn) && ScanBlock(b, r, calls).Closed?
    ensures AreCalls(b.syn, cs) && IsGap(gap) && r == CallsSpelled(b.syn, cs) + (gap + rest)
    ensures rest == SkipSpace(rest) && !OpensTag(rest, b.syn.invokeStart)
    ensures (!b.implicit ==> b.syn.toolEnd <= rest) && (b.implicit ==> calls != [] || cs != [])
    decreases |r|
  {
    hide ScanBlock, WellFormed, SkipSpace, OpensTag, IsCall, CallSpelled, ScanInvoke;
    var t := SkipSpace(r);
    if OpensTag(t, b.syn.invokeStart) {
      var c, tail := CallIsSpelled(b, r, calls);
      CallScans(b, c, calls, tail);
      var others;
      others, gap, rest := CallsAreSpelled(b, tail, calls + [CallOf(b.syn, c)]);
      cs := [c] + others;
      assert cs[1..] == others;
    } else {
      BlockSkips(b, r, calls);
      SkipSpaceIdempotent(r);
      BlockSteps(b, t, calls);
      gap := GapIn(r);
      cs, rest := [], t;
    }
  }

  // ----- the block a text opens with -----

  /** A block that either reader closes is a spelled one. */
  lemma OpenedIsSpelled(d: Reader, t: string, n: nat, syn: Syntax, implicit: bool, live: bool)
      returns (s: SpelledBlock, rest: string)
    requires OpensBlock(d, t, n, syn, implicit) && Quotable(syn) && Unambiguous(d.table)
    requires var r := if implicit then t[n..] else DropPrefix(t[n..], syn.toolStart);
             ScanBlock(Block(syn, implicit, d.json, live), r, []).Closed?
    ensures IsBlock(syn, s) && s.wrapped == !implicit && t[n..] == BlockSpelled(syn, s) + rest
    ensures implicit ==> !OpensTag(SkipSpace(rest), syn.invokeStart)
  {
    hide ScanBlock, WellFormed, SkipSpace, OpensTag, AreCalls, CallsSpelled, NextMarker, Unambiguous, MarkerAt;
    var b, r := Block(syn, implicit, d.json, live), t[n..];
    assert r + "" == r;
    OpenerPersists(d, r, "", syn, implicit);
    var cs, gap, more := CallsAreSpelled(b, if implicit then r else DropPrefix(r, syn.toolStart), []);
    if implicit {
      s, rest := SpelledBlock(false, cs, ""), gap + more;
      BareGap(syn, cs, rest, r);
      GapThenText(gap, more);
    } else {
      s, rest := SpelledBlock(true, cs, gap), more[|syn.toolEnd|..];
      assert r == syn.toolStart + (CallsSpelled(syn, cs) + (gap + (syn.toolEnd + rest)));
    }
  }

  /** A bare call begins without white space. */
  lemma BareGap(syn: Syntax, cs: seq<SpelledCall>, rest: string, r: string)
    requires cs != [] && AreCalls(syn, cs) && r == CallsSpelled(syn, cs) + rest && OpensTag(r, syn.invokeStart)
    ensures cs[0].gap == ""
  {
    hide WellFormed, TagText, ParamsSpelled;
    StartsInvoke(syn, r);
    assert IsCall(syn, cs[0]);
    assert r[..|cs[0].gap|] == cs[0].gap;
  }

  lemma GapThenText(gap: string, more: string)
    requires IsGap(gap) && SkipSpace(more) == more
    ensures SkipSpace(gap + more) == more
  {
    if gap == "" {
      assert gap + more == more;
    } else {
      assert (gap + more)[1..] == gap[1..] + more;
      GapThenText(gap[1..], more);
    }
  }

  /** What begins no marker begins none when it is cut. */
  lemma CutBeginsNone(d: Reader, b: string, ext: string)
    requires MarkerAt(d, b + ext) == NoMarker
    ensures MarkerAt(d, b) == NoMarker
  {
    hide WellFormed, XmlWellFormed, EOS, OpensTag;
    PrefixExtends(b, ext, EOS);
    PrefixExtends(b, ext, d.xml.callStart);
    if !IsXml(d.dialect) {
      NoStartInCut(d.table, b, ext);
    }
  }

  lemma {:induction false} NoStartInCut(table: seq<Syntax>, b: string, ext: string)
    ensures ToolStartAt(table, b + ext) == NoMarker ==> ToolStartAt(table, b) == NoMarker
    ensures InvokeAt(table, b + ext) == NoMarker ==> InvokeAt(table, b) == NoMarker
  {
    hide WellFormed;
    if table != [] {
      NoStartInCut(table[1..], b, ext);
      PrefixExtends(b, ext, table[0].toolStart);
      PrefixExtends(b, ext, table[0].invokeStart);
      assert OpensTag(b, table[0].invokeStart) ==> OpensTag(b + ext, table[0].invokeStart) by {
        assert |b| > |table[0].invokeStart| ==> (b + ext)[|table[0].invokeStart|] == b[|table[0].invokeStart|];
      }
    }
  }

  lemma ContentInFront(d: Reader, t: string, n: nat)
    requires n == NextMarker(d, t) && n < |t| && t[n] == '<'
    ensures ContentBeforeTag(d, t[..n])
  {
    hide NextMarker, MarkerAt;
    NextMarkerIsFirst(d, t);
    forall j | 0 <= j < n ensures MarkerAt(d, (t[..n] + "<")[j..]) == NoMarker {
      var b := (t[..n] + "<")[j..];
      assert t[j..] == b + t[n + 1..];
      CutBeginsNone(d, b, t[n + 1..]);
    }
  }

  /** The text is plain content, a spelled block and something behind it. */
  predicate Spells(d: Reader, t: string, content: string, i: nat, s: SpelledBlock, rest: string) {
    && i < |d.table| && IsBlock(d.table[i], s) && ContentBeforeTag(d, content)
    && t == content + BlockSpelled(d.table[i], s) + rest
  }

  /** What the stream wants behind the block, and of its arguments. */
  predicate Shown(d: Reader, i: nat, s: SpelledBlock, rest: string, calls: seq<Call>) {
    && i < |d.table| && calls == CallsOf(d.table[i], s.calls) && AllValid(d.json, calls, 0, true)
    && AsciiBlank(UpToEos(rest)) && (s.wrapped || Contains(rest, EOS))
  }

  /** What the batch reader wants. */
  predicate Accepted(d: Reader, i: nat, s: SpelledBlock, rest: string) {
    && i < |d.table| && s.calls != [] && AllValid(d.json, CallsOf(d.table[i], s.calls), 0, false)
    && TrimSpace(UpToEos(rest)) == ""
  }

  /** The stream decoder shows calls exactly for the texts that spell them, behind the content in front. */
  lemma StreamedExactly(dialect: Dialect, json: Json, literal: string -> bool, t: string, calls: seq<Call>)
    requires !IsXml(dialect)
    ensures var d := ReaderOf(dialect, json, literal);
            && (DecideAll(d, false, t).calls == Some(calls) <==>
                exists content: string, i: nat, s: SpelledBlock, rest: string ::
                  Spells(d, t, content, i, s, rest) && Shown(d, i, s, rest, calls))
            && forall content: string, i: nat, s: SpelledBlock, rest: string ::
                 Spells(d, t, content, i, s, rest) && Shown(d, i, s, rest, calls) ==>
                 DecideAll(d, false, t) == Verdict(content, Some(calls))
  {
    hide Spells, Shown, Decide, Table, XmlForms;
    var d := ReaderOf(dialect, json, literal);
    if Decide(d, t).calls == Some(calls) {
      var content, i, s, rest := ShownIsSpelled(dialect, json, literal, t, calls);
    }
    forall content: string, i: nat, s: SpelledBlock, rest: string |
      Spells(d, t, content, i, s, rest) && Shown(d, i, s, rest, calls)
      ensures Decide(d, t) == Verdict(content, Some(calls))
    {
      SpelledIsShown(dialect, json, literal, t, content, i, s, rest, calls);
    }
  }

  lemma SpelledIsShown(dialect: Dialect, json: Json, literal: string -> bool, t: string, content: string, i: nat,
          s: SpelledBlock, rest: string, calls: seq<Call>)
    requires !IsXml(dialect) && Shown(ReaderOf(dialect, json, literal), i, s, rest, calls)
    requires Spells(ReaderOf(dialect, json, literal), t, content, i, s, rest)
    ensures Decide(ReaderOf(dialect, json, literal), t) == Verdict(content, Some(calls))
  {
    hide IsBlock, ContentBeforeTag, BlockSpelled, CallsOf, AllValid, AsciiBlank, UpToEos, Decide, Table, XmlForms,
         EOS, ParseContent, SameCalls, TrimSpace, OpensBlock, Quotable, Unambiguous, WellFormed;
    SpelledReads(dialect, json, literal, content, i, s, rest);
    TablesAreUnambiguous(dialect);
    TablesQuote(dialect, i);
    var d, syn := ReaderOf(dialect, json, literal), Table(dialect)[i];
    BlockOpensHere(d, content, syn, s, rest);
    ShownInFront(d, t, |content|, syn, !s.wrapped);
    assert t[..|content|] == content;
  }

  lemma ShownInFront(d: Reader, t: string, n: nat, syn: Syntax, implicit: bool)
    requires OpensBlock(d, t, n, syn, implicit) && Decide(d, t).calls.Some? && !IsXml(d.dialect)
    ensures Decide(d, t).content == t[..n]
  {
    hide NextMarker, MarkerAt, ScanOpened, SkipSpace, CutAfter, EOS, WellFormed;
  }

  lemma ShownIsSpelled(dialect: Dialect, json: Json, literal: string -> bool, t: string, calls: seq<Call>)
      returns (content: string, i: nat, s: SpelledBlock, rest: string)
    requires !IsXml(dialect) && Decide(ReaderOf(dialect, json, literal), t).calls == Some(calls)
    ensures var d := ReaderOf(dialect, json, literal); Spells(d, t, content, i, s, rest) && Shown(d, i, s, rest, calls)
  {
    hide Spells, Shown, Table, XmlForms, NextMarker, Unambiguous, Quotable, Judge, Decide, OpensBlock;
    var d := ReaderOf(dialect, json, literal);
    TablesAreUnambiguous(dialect);
    var syn, implicit := BlockDecided(d, t);
    i := SpellingOf(d, t, NextMarker(d, t), syn, implicit);
    TablesQuote(dialect, i);
    content, s, rest := BlockIsSpelled(d, t, NextMarker(d, t), i, implicit, calls);
  }

  lemma BlockIsSpelled(d: Reader, t: string, n: nat, i: nat, implicit: bool, calls: seq<Call>)
      returns (content: string, s: SpelledBlock, rest: string)
    requires i < |d.table| && OpensBlock(d, t, n, d.table[i], implicit) && Quotable(d.table[i]) && t[n] == '<'
    requires !IsXml(d.dialect) && Unambiguous(d.table)
    requires Judge(d, t, t[..n], implicit, ScanOpened(d, d.table[i], implicit, t[n..])).calls == Some(calls)
    ensures Spells(d, t, content, i, s, rest) && Shown(d, i, s, rest, calls)
  {
    hide IsBlock, ContentBeforeTag, BlockSpelled, CallsOf, AllValid, AsciiBlank, UpToEos, EOS, NextMarker, MarkerAt,
         ScanBlock, SkipSpace, Unambiguous, Quotable, Judge, OpensTag, WellFormed, Contains, OpensBlock, ScanOpened,
         DropPrefix;
    var syn := d.table[i];
    assert n == NextMarker(d, t) && n < |t| by {
      OpensThere(d, t, n, syn, implicit);
    }
    OpenedScan(d, syn, implicit, t[n..]);
    StreamAccepts(d, t, n, implicit, ScanOpened(d, syn, implicit, t[n..]));
    s, rest := OpenedIsSpelled(d, t, n, syn, implicit, true);
    BlockScans(d, syn, s, true, rest);
    EndOfShown(d, t, n, implicit, CallsOf(syn, s.calls), rest);
    ContentInFront(d, t, n);
    content := t[..n];
  }

  lemma SpellingOf(d: Reader, t: string, n: nat, syn: Syntax, implicit: bool) returns (i: nat)
    requires OpensBlock(d, t, n, syn, implicit) && Unambiguous(d.table)
    ensures i < |d.table| && d.table[i] == syn && t[n] == '<'
  {
    hide WellFormed, MarkerAt, NextMarker, OpensTag;
    assert t[n..] + "" == t[n..];
    OpenerPersists(d, t[n..], "", syn, implicit);
    SyntaxOpens(syn);
    if implicit {
      TagStarts(t[n..], syn.invokeStart);
    }
    i :| 0 <= i < |d.table| && d.table[i] == syn;
  }

  lemma BlockDecided(d: Reader, t: string) returns (syn: Syntax, implicit: bool)
    requires !IsXml(d.dialect) && Decide(d, t).calls.Some?
    ensures OpensBlock(d, t, NextMarker(d, t), syn, implicit)
    ensures Decide(d, t) == Judge(d, t, t[..NextMarker(d, t)], implicit,
                                  ScanOpened(d, syn, implicit, t[NextMarker(d, t)..]))
  {
    hide NextMarker, ScanOpened, Judge, ToolStartAt, InvokeAt, WellFormed;
    var n := NextMarker(d, t);
    assert n < |t|;
    var m := MarkerAt(d, t[n..]);
    assert m.Opens? by {
      KindsOf(d.table, t[n..]);
    }
    syn, implicit := m.syn, m.implicit;
  }

  lemma KindsOf(table: seq<Syntax>, r: string)
    ensures OpenAt(table, r) == NoMarker || OpenAt(table, r).Opens?
  {
    hide WellFormed;
    ToolStartKinds(table, r);
    InvokeKinds(table, r);
  }

  lemma OpenedScan(d: Reader, syn: Syntax, implicit: bool, r: string)
    ensures ScanOpened(d, syn, implicit, r) ==
            ScanBlock(Block(syn, implicit, d.json, true), if implicit then r else DropPrefix(r, syn.toolStart), [])
  {
    hide ScanBlock;
  }

  lemma OpensThere(d: Reader, t: string, n: nat, syn: Syntax, implicit: bool)
    requires OpensBlock(d, t, n, syn, implicit)
    ensures n == NextMarker(d, t) && n < |t|
  {}

  lemma EndOfShown(d: Reader, t: string, n: nat, implicit: bool, calls: seq<Call>, rest: string)
    requires n <= |t| && !IsXml(d.dialect)
    requires Judge(d, t, t[..n], implicit, Closed(calls, if implicit then SkipSpace(rest) else rest)).calls.Some?
    ensures AsciiBlank(UpToEos(rest)) && (!implicit || Contains(rest, EOS))
    ensures Judge(d, t, t[..n], implicit, Closed(calls, if implicit then SkipSpace(rest) else rest)).calls ==
            Some(calls)
  {
    hide SkipSpace, AsciiBlank, UpToEos, Contains, CutAfter, EOS, JudgeEnd;
    SkipSpaceIdempotent(rest);
    TrailingText(rest);
    var r := if implicit then SkipSpace(rest) else rest;
    EndAccepts(d, t, t[..n], implicit, calls, r, SkipSpace(r));
  }

  lemma EndAccepts(d: Reader, whole: string, before: string, implicit: bool, calls: seq<Call>, rest: string, t: string)
    requires !IsXml(d.dialect)
    ensures var v := JudgeEnd(d, whole, before, implicit, calls, rest, t);
            v.calls == if EOS <= t || (t == "" && !implicit) then Some(calls) else None
  {
    hide CutAfter, EOS;
  }

  // ----- the batch reader -----

  lemma {:induction false} GapTrims(gap: string, r: string)
    requires IsGap(gap)
    ensures TrimSpace(UpToEos(gap + r)) == TrimSpace(UpToEos(r))
  {
    hide TrimRight, EOS;
    if gap == "" {
      assert gap + r == r;
    } else {
      var tail := gap[1..] + r;
      assert gap + r == [gap[0]] + tail;
      EosIsOpener();
      assert (gap + r)[1..] == tail;
      GapTrims(gap[1..], r);
      assert UpToEos(gap + r) == [gap[0]] + UpToEos(tail);
      assert ([gap[0]] + UpToEos(tail))[1..] == UpToEos(tail);
    }
  }

  lemma {:induction false} AngleStays(x: string)
    requires x != "" && x[0] == '<'
    ensures TrimRight(x) != ""
    decreases |x|
  {
    var k := SpaceEnding(x);
    if k != 0 {
      assert k < |x|;
      AngleStays(x[..|x| - k]);
    }
  }

  /** No tag begins text that trims to nothing up to the end of the sentence. */
  lemma BlankBeginsNoTag(tag: string, rest: string)
    requires IsOpener(tag) && UnlikeEos(tag) && TrimSpace(UpToEos(rest)) == ""
    ensures !(tag <= SkipSpace(rest))
  {
    hide SkipSpace, EOS, TrimRight, UpToEos;
    var gap := GapIn(rest);
    var t := SkipSpace(rest);
    GapTrims(gap, t);
    assert t + "" == t;
    if tag <= t {
      UnlikeEosIsFinal(t, tag, "");
      NotEosStays(t);
      AngleStays(UpToEos(t));
    }
  }

  lemma BlankOpensNothing(syn: Syntax, rest: string)
    requires TrimSpace(UpToEos(rest)) == ""
    ensures !OpensTag(SkipSpace(rest), syn.invokeStart)
  {
    hide SkipSpace, WellFormed, TrimSpace, UpToEos;
    SyntaxOpens(syn);
    BlankBeginsNoTag(syn.invokeStart, rest);
  }

  lemma NotEosStays(t: string)
    requires t != "" && t[0] == '<' && !(EOS <= t)
    ensures UpToEos(t) != "" && UpToEos(t)[0] == '<' && TrimLeft(UpToEos(t)) == UpToEos(t)
  {
    hide EOS;
  }

  /** The batch reader returns calls exactly for the texts that spell them, and then those. */
  lemma ParsedExactly(dialect: Dialect, json: Json, literal: string -> bool, t: string)
    requires !IsXml(dialect)
    ensures var d := ReaderOf(dialect, json, literal);
            var m := ParseCompletion(d, t, false);
            && (m.calls != [] <==> exists content: string, i: nat, s: SpelledBlock, rest: string ::
                  Spells(d, t, content, i, s, rest) && Accepted(d, i, s, rest))
            && forall content: string, i: nat, s: SpelledBlock, rest: string ::
                 Spells(d, t, content, i, s, rest) && Accepted(d, i, s, rest) ==>
                 && m.malformed == None && m.content == TrimSpace(content) && i < |d.table|
                 && SameCalls(json, m.calls, CallsOf(d.table[i], s.calls))
  {
    hide Spells, Accepted, ParseContent, Table, XmlForms, SameCalls, TrimSpace, CallsOf;
    var d := ReaderOf(dialect, json, literal);
    if ParseContent(d, t).calls != [] {
      var content, i, s, rest := ReturnedIsSpelled(dialect, json, literal, t);
    }
    forall content: string, i: nat, s: SpelledBlock, rest: string |
      Spells(d, t, content, i, s, rest) && Accepted(d, i, s, rest)
      ensures i < |d.table| && SameCalls(json, ParseContent(d, t).calls, CallsOf(d.table[i], s.calls))
      ensures var m := ParseContent(d, t); m.malformed == None && m.content == TrimSpace(content) && m.calls != []
    {
      SpelledIsReturned(dialect, json, literal, t, content, i, s, rest);
    }
  }

  lemma SpelledIsReturned(dialect: Dialect, json: Json, literal: string -> bool, t: string, content: string, i: nat,
          s: SpelledBlock, rest: string)
    requires !IsXml(dialect) && Accepted(ReaderOf(dialect, json, literal), i, s, rest)
    requires Spells(ReaderOf(dialect, json, literal), t, content, i, s, rest)
    ensures var m := ParseContent(ReaderOf(dialect, json, literal), t);
            && m.malformed == None && m.content == TrimSpace(content) && m.calls != [] && i < |Table(dialect)|
            && SameCalls(json, m.calls, CallsOf(Table(dialect)[i], s.calls))
  {
    hide IsBlock, ContentBeforeTag, BlockSpelled, CallsOf, AllValid, UpToEos, Table, XmlForms, ParseContent,
         TrimSpace, NextMarker, MarkerAt, ScanBlock, SkipSpace, OpensTag, Quotable, Unambiguous, WellFormed,
         OpensBlock, AsciiBlank;
    var d, syn := ReaderOf(dialect, json, literal), Table(dialect)[i];
    TablesAreUnambiguous(dialect);
    TablesQuote(dialect, i);
    BlockOpensHere(d, content, syn, s, rest);
    BlankOpensNothing(syn, rest);
    BlockScans(d, syn, s, false, rest);
    BlockParsed(d, t, |content|, syn, !s.wrapped);
    BlankSkips(rest);
    assert t[..|content|] == content;
    SomeCalls(syn, s.calls);
  }

  lemma BlankSkips(rest: string)
    ensures TrimSpace(UpToEos(SkipSpace(rest))) == TrimSpace(UpToEos(rest))
  {
    hide SkipSpace, UpToEos, TrimSpace;
    var gap := GapIn(rest);
    GapTrims(gap, SkipSpace(rest));
  }

  lemma ReturnedIsSpelled(dialect: Dialect, json: Json, literal: string -> bool, t: string)
      returns (content: string, i: nat, s: SpelledBlock, rest: string)
    requires !IsXml(dialect) && ParseContent(ReaderOf(dialect, json, literal), t).calls != []
    ensures var d := ReaderOf(dialect, json, literal); Spells(d, t, content, i, s, rest) && Accepted(d, i, s, rest)
  {
    hide Spells, Accepted, Table, XmlForms, NextMarker, Unambiguous, Quotable, ParseContent, OpensBlock;
    var d := ReaderOf(dialect, json, literal);
    TablesAreUnambiguous(dialect);
    var syn, implicit := BlockReturned(d, t);
    i := SpellingOf(d, t, NextMarker(d, t), syn, implicit);
    TablesQuote(dialect, i);
    content, s, rest := ReturnedBlockIsSpelled(d, t, NextMarker(d, t), i, implicit);
  }

  lemma BlockReturned(d: Reader, t: string) returns (syn: Syntax, implicit: bool)
    requires !IsXml(d.dialect) && ParseContent(d, t).calls != []
    ensures OpensBlock(d, t, NextMarker(d, t), syn, implicit)
  {
    hide NextMarker, BlockMessage, ToolStartAt, InvokeAt, WellFormed, TrimSpace, HasStrayMarker, UpToEos;
    var n := NextMarker(d, t);
    assert n < |t|;
    var m := MarkerAt(d, t[n..]);
    assert m.Opens? by {
      KindsOf(d.table, t[n..]);
    }
    syn, implicit := m.syn, m.implicit;
  }

  lemma ReturnedBlockIsSpelled(d: Reader, t: string, n: nat, i: nat, implicit: bool)
      returns (content: string, s: SpelledBlock, rest: string)
    requires i < |d.table| && OpensBlock(d, t, n, d.table[i], implicit) && Quotable(d.table[i]) && t[n] == '<'
    requires !IsXml(d.dialect) && Unambiguous(d.table) && ParseContent(d, t).calls != []
    ensures Spells(d, t, content, i, s, rest) && Accepted(d, i, s, rest)
  {
    hide IsBlock, ContentBeforeTag, BlockSpelled, CallsOf, AllValid, AsciiBlank, UpToEos, NextMarker, MarkerAt,
         TrimSpace, ScanBlock, SkipSpace, Unambiguous, Quotable, ParseContent, OpensTag, WellFormed, OpensBlock;
    var syn := d.table[i];
    OpensThere(d, t, n, syn, implicit);
    BlockParsed(d, t, n, syn, implicit);
    s, rest := OpenedIsSpelled(d, t, n, syn, implicit, false);
    BlockScans(d, syn, s, false, rest);
    BlankSkips(rest);
    ContentInFront(d, t, n);
    content := t[..n];
    assert s.calls == [] ==> CallsOf(syn, s.calls) == [];
  }
}
