/** Which cuts of a written reply the repair closes (dsml/repair.go:30-78): exactly those between two calls. A reply cut
    inside a call, and so inside a value, is left open. */
module RepairCuts {
  import opened Text
  import opened ToolText
  import opened Markup
  import opened Calls
  import opened Grammar
  import opened Phases
  import opened Transitions
  import opened Decode
  import opened Completion
  import opened StructuralScan
  import opened Encode
  import opened RoundTrip
  import opened MessageRoundTrip
  import opened Repair
  import BlockSpelling

  // ----- the structural scan of a cut text -----

  /** Openers that hold no `>` but at their end. */
  predicate CloseAtEnd(ws: seq<(string, string)>) {
    forall i :: 0 <= i < |ws| ==> '>' !in Until(ws[i].0, |ws[i].0| - 1)
  }

  /** A cut hides a wrapper only inside its opener. */
  lemma {:induction false} WrapperOfCut(ws: seq<(string, string)>, a: string, r: string)
    ensures WrapperAt(ws, a) == WrapperAt(ws, a + r) ||
            (WrapperAt(ws, a + r).Some? && a < WrapperAt(ws, a + r).value.0)
  {
    if ws != [] {
      PrefixExtends(a, r, ws[0].0);
      WrapperOfCut(ws[1..], a, r);
    }
  }

  lemma StrideOfCut(ws: seq<(string, string)>, a: string, r: string)
    requires a != "" && WrapperAt(ws, a) == WrapperAt(ws, a + r) && Stride(ws, a).Some?
    ensures Stride(ws, a + r) == Stride(ws, a)
  {
    hide WrapperAt, Index;
    match WrapperAt(ws, a)
    case None =>
    case Some(w) =>
      IndexExtends(a, r, ">");
      var gt := Index(a, ">");
      DropAppend(a, r, gt + 1);
      IndexExtends(a[gt + 1..], r, w.1);
  }

  lemma NoCloserInPlain(ws: seq<(string, string)>, w: string)
    requires Openers(ws) && '<' !in w
    ensures NoCloser(ws, w)
  {
    hide LastStructural, Inert;
    NothingLeft(ws);
    if w != "" {
      PlainIsInert(ws, w);
      InertSkips(ws, w, "");
      assert w + "" == w;
    }
  }

  /** The beginning of an opener leaves the scan nothing to find. */
  lemma CutInOpener(ws: seq<(string, string)>, a: string, u: string)
    requires Openers(ws) && IsOpener(u) && '>' !in Until(u, |u| - 1) && a != "" && a < u && !(THINK_END <= a)
    ensures Stride(ws, a).Some? ==> NoCloser(ws, a)
  {
    hide WrapperAt, Index;
    forall i | 0 <= i < |a| ensures a[i] == Until(u, |u| - 1)[i] && (i > 0 ==> a[i] != '<') {
      assert i > 0 ==> u[i] == u[1..][i - 1];
    }
    IndexIsFirst(a, ">");
    assert Index(a, ">") >= 0 ==> a[Index(a, ">")..][0] == '>';
    NoCloserInPlain(ws, a[1..]);
  }

  /** Cutting a text adds no structural closer. */
  lemma {:induction false} CutHasNone(ws: seq<(string, string)>, s: string, n: nat)
    requires PlainOpeners(ws) && Openers(ws) && CloseAtEnd(ws) && n <= |s| && NoCloser(ws, s)
    ensures NoCloser(ws, s[..n])
    decreases |s|
  {
    hide WrapperAt, Stride, IsOpener;
    var a, r := s[..n], s[n..];
    assert s == a + r;
    PrefixExtends(a, r, THINK_END);
    NothingLeft(ws);
    if a != "" && Stride(ws, a).Some? {
      WrapperOfCut(ws, a, r);
      if WrapperAt(ws, a) == WrapperAt(ws, s) {
        StrideOfCut(ws, a, r);
        var k := Stride(ws, a).value;
        assert a[k..] == s[k..][..n - k];
        CutHasNone(ws, s[k..], n - k);
      } else {
        CutInOpener(ws, a, WrapperAt(ws, s).value.0);
      }
    }
  }

  // ----- counting in cut text -----

  /** Counts add up where a tag or a line begins. */
  lemma {:induction false} CountsAdd(p: string, a: string, b: string)
    requires IsTag(p) && (b == "" || TagFollows(b))
    ensures Count(a + b, p) == Count(a, p) + Count(b, p)
    decreases |a|
  {
    if a == "" {
      assert a + b == b;
    } else {
      PrefixExtends(a, b, p);
      if p <= a {
        DropAppend(a, b, |p|);
        CountsAdd(p, a[|p|..], b);
      } else {
        assert |p| > |a| && b != "" ==> (a + b)[|a|] == b[0];
        DropAppend(a, b, 1);
        CountsAdd(p, a[1..], b);
      }
    }
  }

  lemma {:induction false} CountOfCut(p: string, s: string, n: nat)
    requires n <= |s|
    ensures Count(s[..n], p) <= Count(s, p) && (n < |p| ==> Count(s[..n], p) == 0)
    decreases |s|
  {
    var a := s[..n];
    if a != "" && p != "" {
      assert s == a + s[n..];
      PrefixExtends(a, s[n..], p);
      if p <= a {
        assert a[|p|..] == s[|p|..][..n - |p|];
        CountOfCut(p, s[|p|..], n - |p|);
      } else {
        assert a[1..] == s[1..][..n - 1];
        CountOfCut(p, s[1..], n - 1);
        if p <= s {
          CountOfCut(p, s[1..], n - 1);
        }
      }
    }
  }

  /** A tag that is not complete counts as none. */
  lemma PartOfTag(p: string, tag: string, m: nat)
    requires IsTag(p) && Told(p, tag) && m < |tag|
    ensures Count(tag[..m], p) == 0
  {
    hide Count;
    CountOfCut(p, tag, m);
    CountTag(p, tag, "");
    assert tag + "" == tag;
    CountPlain(p, "", "");
    assert "" + "" == "";
    assert Count("", p) == 0 by {
      CountOfCut(p, "", 0);
    }
  }

  // ----- where the calls of a written reply begin -----

  /** Where the `k`-th call begins, or the wrapper's close tag behind the last. */
  function CallStart(syn: Syntax, content: string, cs: seq<Request>, k: nat): (n: nat)
    requires k <= |cs|
  {
    |CutReply(syn, content, cs[..k])|
  }

  function NextTag(syn: Syntax, cs: seq<Request>, k: nat): string {
    if k < |cs| then syn.invokeStart else syn.toolEnd
  }

  /** The cut falls behind `k` calls, in front of the end of the tag that is next. */
  predicate CutBehind(syn: Syntax, content: string, cs: seq<Request>, k: nat, n: nat) {
    k <= |cs| && CallStart(syn, content, cs, k) - 1 <= n < CallStart(syn, content, cs, k) + |NextTag(syn, cs, k)|
  }

  function Written(syn: Syntax, content: string, cs: seq<Request>): string {
    content + BlockText(syn, cs)
  }

  lemma {:induction false} OpenGrows(syn: Syntax, cs: seq<Request>, c: Request)
    ensures OpenInvokes(syn, cs + [c]) == OpenInvokes(syn, cs) + (InvokeText(syn, c) + "\n")
    decreases |cs|
  {
    hide InvokeText;
    if cs == [] {
      assert [c][1..] == [] && cs + [c] == [c];
      assert "\n" + InvokeText(syn, c) + "\n" == "\n" + (InvokeText(syn, c) + "\n");
    } else {
      assert (cs + [c])[1..] == cs[1..] + [c] && (cs + [c])[0] == cs[0];
      OpenGrows(syn, cs[1..], c);
    }
  }

  lemma NextCall(syn: Syntax, content: string, cs: seq<Request>, k: nat)
    requires k < |cs|
    ensures CallStart(syn, content, cs, k + 1) == CallStart(syn, content, cs, k) + |InvokeText(syn, cs[k])| + 1
    ensures |InvokeText(syn, cs[k])| >= |syn.invokeStart|
  {
    hide OpenInvokes, ParamsText, WellFormed, AttrEscape;
    assert cs[..k + 1] == cs[..k] + [cs[k]];
    OpenGrows(syn, cs[..k], cs[k]);
  }

  lemma {:induction false} StartsGrow(syn: Syntax, content: string, cs: seq<Request>, j: nat, k: nat)
    requires j < k <= |cs|
    ensures CallStart(syn, content, cs, j) + |syn.invokeStart| < CallStart(syn, content, cs, k)
    decreases k
  {
    hide CallStart, InvokeText;
    NextCall(syn, content, cs, k - 1);
    if j < k - 1 {
      StartsGrow(syn, content, cs, j, k - 1);
    }
  }

  /** A written reply is its first calls and then the others with the close tag. */
  lemma {:induction false} OpenThenRest(syn: Syntax, cs: seq<Request>, k: nat)
    requires k <= |cs|
    ensures InvokesText(syn, cs) == OpenInvokes(syn, cs[..k]) + InvokesText(syn, cs[k..])[1..]
    decreases |cs|
  {
    hide InvokeText, WellFormed;
    var rest := InvokesText(syn, cs[k..])[1..];
    if k == 0 {
      assert cs[..0] == [] && cs[0..] == cs;
      assert InvokesText(syn, cs) == "\n" + rest;
    } else {
      var front := OpenInvokes(syn, cs[1..][..k - 1]);
      assert OpenInvokes(syn, cs[..k]) == "\n" + InvokeText(syn, cs[0]) + front by {
        assert cs[..k][1..] == cs[1..][..k - 1];
      }
      assert cs[k..] == cs[1..][k - 1..];
      OpenThenRest(syn, cs[1..], k - 1);
      Regroup("\n" + InvokeText(syn, cs[0]), front, rest);
    }
  }

  lemma Regroup(a: string, b: string, c: string)
    ensures a + (b + c) == a + b + c
  {}

  /** Behind `k` calls comes the next call, or the close tag. */
  function Behind(syn: Syntax, cs: seq<Request>, k: nat): string
    requires k <= |cs|
  {
    if k < |cs| then InvokeText(syn, cs[k]) + InvokesText(syn, cs[k + 1..]) else syn.toolEnd
  }

  lemma WrittenSplits(syn: Syntax, content: string, cs: seq<Request>, k: nat)
    requires k <= |cs| && cs != []
    ensures Written(syn, content, cs) == CutReply(syn, content, cs[..k]) + Behind(syn, cs, k)
  {
    hide InvokeText, InvokesText, OpenInvokes, WellFormed;
    OpenThenRest(syn, cs, k);
    assert InvokesText(syn, cs[k..])[1..] == Behind(syn, cs, k) by {
      BehindIs(syn, cs, k);
    }
    var a := content + "\n\n" + syn.toolStart;
    assert a + (OpenInvokes(syn, cs[..k]) + Behind(syn, cs, k)) == a + OpenInvokes(syn, cs[..k]) + Behind(syn, cs, k);
    assert content + ("\n\n" + syn.toolStart + InvokesText(syn, cs)) == a + InvokesText(syn, cs);
  }

  lemma BehindIs(syn: Syntax, cs: seq<Request>, k: nat)
    requires k <= |cs|
    ensures InvokesText(syn, cs[k..]) == "\n" + Behind(syn, cs, k)
  {
    hide InvokeText, WellFormed;
    if k < |cs| {
      assert cs[k..][1..] == cs[k + 1..] && cs[k..][0] == cs[k];
    }
  }

  /** The number of calls in front of a cut behind the wrapper's opening tag. */
  lemma CallsInFront(syn: Syntax, content: string, cs: seq<Request>, n: nat) returns (k: nat)
    requires CallStart(syn, content, cs, 0) - 1 <= n
    ensures k <= |cs| && CallStart(syn, content, cs, k) - 1 <= n
    ensures k < |cs| ==> n < CallStart(syn, content, cs, k + 1) - 1
  {
    hide CallStart;
    k := 0;
    while k < |cs| && CallStart(syn, content, cs, k + 1) - 1 <= n
      invariant k <= |cs| && CallStart(syn, content, cs, k) - 1 <= n
    {
      k := k + 1;
    }
  }

  // ----- counts of a reply cut behind `k` calls -----

  lemma OpensWithBreak(syn: Syntax, content: string, cs: seq<Request>)
    ensures var u := CutReply(syn, content, cs); u != "" && u[|u| - 1] == '\n'
  {
    hide WellFormed, InvokeText;
    OpenEnds(syn, cs);
  }

  lemma {:induction false} OpenEnds(syn: Syntax, cs: seq<Request>)
    ensures var u := OpenInvokes(syn, cs); u != "" && u[|u| - 1] == '\n'
  {
    hide InvokeText;
    if cs != [] {
      OpenEnds(syn, cs[1..]);
    }
  }

  /** What is cut off behind `k` calls counts on its own. */
  lemma CutCountsOf(syn: Syntax, content: string, cs: seq<Request>, k: nat, m: nat, p: string)
    requires k <= |cs| && cs != [] && IsTag(p) && m <= |Behind(syn, cs, k)|
    ensures var u, b := CutReply(syn, content, cs[..k]), Behind(syn, cs, k);
            && Count(u + b[..m], p) == Count(u, p) + Count(b[..m], p)
            && (m == 0 ==> Count(u[..|u| - 1], p) == Count(u, p))
  {
    hide Count, CutReply, InvokesText, WellFormed, ParamsText, AttrEscape;
    var u, b := CutReply(syn, content, cs[..k]), Behind(syn, cs, k);
    assert b[..m] == "" || TagFollows(b[..m]) by {
      SyntaxBegins(syn);
    }
    CountsAdd(p, u, b[..m]);
    OpensWithBreak(syn, content, cs[..k]);
    assert u == u[..|u| - 1] + "\n";
    CountsAdd(p, u[..|u| - 1], "\n");
    OpenNothing(p);
  }

  lemma SyntaxBegins(syn: Syntax)
    ensures syn.invokeStart != "" && syn.invokeStart[0] == '<' && syn.toolEnd != "" && syn.toolEnd[0] == '<'
    ensures syn.toolStart != "" && syn.toolStart[0] == '<' && syn.invokeEnd != "" && syn.invokeEnd[0] == '<'
  {}

  lemma {:induction false} ParamsEnd(syn: Syntax, pairs: seq<Argument>)
    ensures EndsWith(ParamsText(syn, pairs), syn.invokeEnd)
    decreases |pairs|
  {
    hide ParamText, WellFormed;
    if pairs != [] {
      ParamsEnd(syn, pairs[1..]);
      EndsBehind("\n" + ParamText(syn, pairs[0]), ParamsText(syn, pairs[1..]), syn.invokeEnd);
    }
  }

  lemma EndsBehind(a: string, b: string, w: string)
    requires EndsWith(b, w)
    ensures EndsWith(a + b, w)
  {
    assert (a + b)[|a + b| - |w|..] == b[|b| - |w|..];
  }

  lemma CallClosesOnce(syn: Syntax, c: Request)
    requires Writable(syn) && AllTold(syn) && PairsLack(PairsOf(c.input), syn.invokeEnd)
    ensures Count(InvokeText(syn, c), syn.invokeEnd) == 1 && TagsTold(syn, syn.invokeEnd)
  {
    hide Count, ParamsText, WellFormed, Writable, AttrEscape, PairsLack, InvokeText, TagsTold, AllTold, Hit;
    var s, p := InvokeText(syn, c), syn.invokeEnd;
    ToldOf(syn, 3);
    assert TagList(syn)[2] == syn.invokeStart && TagList(syn)[3] == p && TagList(syn)[4] == syn.paramStart &&
           TagList(syn)[5] == syn.paramEnd;
    assert s + "" == s;
    InvokeCounts(syn, c, p, "");
    NothingCounts(p);
    Weighted(|PairsOf(c.input)|, 0);
  }

  /** A call that is cut short lost its close tag. */
  lemma CutCallStaysOpen(syn: Syntax, c: Request, m: nat)
    requires Writable(syn) && AllTold(syn) && PairsLack(PairsOf(c.input), syn.invokeEnd)
    requires |syn.invokeStart| <= m < |InvokeText(syn, c)|
    ensures Count(InvokeText(syn, c)[..m], syn.invokeStart) > 0 && Count(InvokeText(syn, c)[..m], syn.invokeEnd) == 0
  {
    hide Count, ParamsText, WellFormed, Writable, AttrEscape, PairsLack, AllTold, Plain;
    var s, p := InvokeText(syn, c), syn.invokeEnd;
    SyntaxBegins(syn);
    CallClosesOnce(syn, c);
    ParamsEnd(syn, PairsOf(c.input));
    EndsBehind(InvokeTag(syn, c.name), ParamsText(syn, PairsOf(c.input)), p);
    CutBeforeLast(p, s, m);
    assert syn.invokeStart <= s[..m] by {
      assert s[..m][..|syn.invokeStart|] == syn.invokeStart;
    }
    OneCounts(syn.invokeStart, s[..m]);
  }

  lemma NothingCounts(p: string)
    ensures Count("", p) == 0
  {}

  lemma OneCounts(p: string, s: string)
    requires p != "" && p <= s
    ensures Count(s, p) > 0
  {}

  /** In front of its only occurrence's end, a tag does not count. */
  lemma CutBeforeLast(p: string, s: string, m: nat)
    requires IsTag(p) && Told(p, p) && EndsWith(s, p) && Count(s, p) == 1 && m < |s|
    ensures Count(s[..m], p) == 0
  {
    hide Count;
    var q := s[..|s| - |p|];
    assert s == q + p;
    CountsAdd(p, q, p);
    CountTag(p, p, "");
    assert p + "" == p;
    NothingCounts(p);
    if m <= |q| {
      CountOfCut(p, q, m);
      assert q[..m] == s[..m];
    } else {
      assert s[..m] == q + p[..m - |q|];
      CountsAdd(p, q, p[..m - |q|]);
      PartOfTag(p, p, m - |q|);
    }
  }

  // ----- the three places of a cut -----

  lemma FewerLack(syn: Syntax, content: string, cs: seq<Request>, k: nat)
    requires LacksTags(syn, content, cs) && k <= |cs|
    ensures LacksTags(syn, content, cs[..k])
  {
    hide PairsLack, WellFormed, Index;
    forall i | 0 <= i < 6 ensures RequestsLack(cs[..k], TagList(syn)[i]) {
      assert RequestsLack(cs, TagList(syn)[i]);
    }
  }

  /** The text of a cut behind `k` calls. */
  lemma CutIs(syn: Syntax, content: string, cs: seq<Request>, k: nat, n: nat)
    requires k <= |cs| && cs != [] && CallStart(syn, content, cs, k) - 1 <= n <= |Written(syn, content, cs)|
    ensures var u, b := CutReply(syn, content, cs[..k]), Behind(syn, cs, k);
            && |Written(syn, content, cs)| == |u| + |b|
            && Written(syn, content, cs)[..n] == if n < |u| then u[..|u| - 1] else u + b[..n - |u|]
  {
    hide CutReply, Behind, Written, WellFormed;
    WrittenSplits(syn, content, cs, k);
  }

  /** Cut between two calls, the reply lost only its wrapper. */
  lemma CutBetween(syn: Syntax, content: string, cs: seq<Request>, k: nat, n: nat)
    requires Writable(syn) && AllTold(syn) && LacksTags(syn, content, cs) && cs != []
    requires CutBehind(syn, content, cs, k, n) && n <= |Written(syn, content, cs)|
    ensures var scan := Written(syn, content, cs)[..n];
            LostWrapper(syn, scan) && Count(scan, syn.toolStart) == 1 && Count(scan, syn.toolEnd) == 0
  {
    hide Count, CutReply, Behind, Written, Writable, LacksTags, AllTold, WellFormed, IsTag, Told;
    var u, b := CutReply(syn, content, cs[..k]), Behind(syn, cs, k);
    var m := if n < |u| then 0 else n - |u|;
    CutIs(syn, content, cs, k, n);
    FewerLack(syn, content, cs, k);
    CutIsRecognised(syn, content, cs[..k]);
    SyntaxBegins(syn);
    var tags := TagList(syn);
    forall i | 0 <= i < 6 ensures Count(Written(syn, content, cs)[..n], tags[i]) == Count(u, tags[i]) {
      ToldOf(syn, i);
      TagTold(syn, tags[i]);
      CutCountsOf(syn, content, cs, k, m, tags[i]);
      assert b[..m] == NextTag(syn, cs, k)[..m] by {
        BehindBegins(syn, cs, k);
      }
      PartOfTag(tags[i], NextTag(syn, cs, k), m);
    }
    assert tags[0] == syn.toolStart && tags[1] == syn.toolEnd && tags[2] == syn.invokeStart
        && tags[3] == syn.invokeEnd && tags[4] == syn.paramStart && tags[5] == syn.paramEnd;
  }

  lemma TagTold(syn: Syntax, p: string)
    requires TagsTold(syn, p)
    ensures IsTag(p) && Told(p, syn.invokeStart) && Told(p, syn.toolEnd)
  {}

  lemma BehindBegins(syn: Syntax, cs: seq<Request>, k: nat)
    requires k <= |cs|
    ensures NextTag(syn, cs, k) <= Behind(syn, cs, k)
  {
    hide WellFormed, ParamsText, InvokesText, AttrEscape;
    if k < |cs| {
      assert Behind(syn, cs, k)[..|syn.invokeStart|] == syn.invokeStart;
    }
  }

  /** Cut inside a call, or not at all, the reply lost more than its wrapper, or nothing. */
  lemma CutElsewhere(syn: Syntax, content: string, cs: seq<Request>, k: nat, n: nat)
    requires Writable(syn) && AllTold(syn) && LacksTags(syn, content, cs) && cs != []
    requires k <= |cs| && CallStart(syn, content, cs, k) + |NextTag(syn, cs, k)| <= n <= |Written(syn, content, cs)|
    requires k < |cs| ==> n < CallStart(syn, content, cs, k) + |InvokeText(syn, cs[k])|
    ensures !LostWrapper(syn, Written(syn, content, cs)[..n])
  {
    hide Count, CutReply, Written, Writable, AllTold, WellFormed, IsTag, Told, InvokeText, InvokesText, LacksTags;
    var u, b := CutReply(syn, content, cs[..k]), Behind(syn, cs, k);
    var m := n - |u|;
    CutIs(syn, content, cs, k, n);
    FewerLack(syn, content, cs, k);
    CutIsRecognised(syn, content, cs[..k]);
    var tags := TagList(syn);
    assert tags[0] == syn.toolStart && tags[1] == syn.toolEnd && tags[2] == syn.invokeStart &&
           tags[3] == syn.invokeEnd;
    forall i | 0 <= i < 4 ensures Count(u + b[..m], tags[i]) == Count(u, tags[i]) + Count(b[..m], tags[i]) {
      ToldOf(syn, i);
      TagTold(syn, tags[i]);
      CutCountsOf(syn, content, cs, k, m, tags[i]);
    }
    if k < |cs| {
      assert b[..m] == InvokeText(syn, cs[k])[..m];
      assert PairsLack(PairsOf(cs[k].input), syn.invokeEnd) by {
        CallLacks(syn, content, cs, k);
      }
      CutCallStaysOpen(syn, cs[k], m);
    } else {
      assert b[..m] == syn.toolEnd;
      ToldOf(syn, 0);
      ToldOf(syn, 1);
      CloseCounts(syn);
    }
  }

  lemma CallLacks(syn: Syntax, content: string, cs: seq<Request>, k: nat)
    requires LacksTags(syn, content, cs) && k < |cs|
    ensures PairsLack(PairsOf(cs[k].input), syn.invokeEnd)
  {
    hide PairsLack, WellFormed, Index;
    assert TagList(syn)[3] == syn.invokeEnd && RequestsLack(cs, TagList(syn)[3]);
  }

  /** The close tag counts as itself. */
  lemma CloseCounts(syn: Syntax)
    requires TagsTold(syn, syn.toolEnd) && TagsTold(syn, syn.toolStart) && syn.toolStart != syn.toolEnd
    ensures Count(syn.toolEnd, syn.toolEnd) == 1 && Count(syn.toolEnd, syn.toolStart) == 0
  {
    hide Count, WellFormed;
    assert syn.toolEnd + "" == syn.toolEnd;
    CountTag(syn.toolEnd, syn.toolEnd, "");
    CountTag(syn.toolStart, syn.toolEnd, "");
    NothingCounts(syn.toolEnd);
    NothingCounts(syn.toolStart);
  }

  // ----- in front of the wrapper -----

  lemma {:induction false} NoSpelling(table: seq<Syntax>, scan: string)
    requires forall i :: 0 <= i < |table| ==> !Contains(scan, table[i].toolStart)
    ensures SpellingIn(table, scan) == None
  {
    hide Index, WellFormed;
    if table != [] {
      assert forall i :: 0 <= i < |table[1..]| ==> table[1..][i] == table[i + 1];
      NoSpelling(table[1..], scan);
    }
  }

  lemma {:induction false} NoToolStart(table: seq<Syntax>, s: string, i: nat)
    requires ToolStartAt(table, s) == NoMarker && i < |table|
    ensures !(table[i].toolStart <= s)
  {
    hide WellFormed;
    if i > 0 {
      NoToolStart(table[1..], s, i - 1);
    }
  }

  lemma ContentOpensNothing(d: Reader, content: string, i: nat, j: nat)
    requires !IsXml(d.dialect) && PlainContent(d, content) && i < |d.table| && j < |content|
    ensures !(d.table[i].toolStart <= content[j..])
  {
    hide ToolStartAt, InvokeAt, WellFormed, EOS;
    assert MarkerAt(d, (content + "\n")[j..]) == NoMarker;
    NoToolStart(d.table, (content + "\n")[j..], i);
    DropAppend(content, "\n", j);
    PrefixExtends(content[j..], "\n", d.table[i].toolStart);
  }

  /** A reply cut in front of the end of its wrapper's opening tag has no wrapper. */
  lemma CutInFront(d: Reader, content: string, cs: seq<Request>, n: nat)
    requires !IsXml(d.dialect) && PlainContent(d, content) && d.table != [] && Unambiguous(d.table) && cs != []
    requires n < |content + "\n\n" + d.table[0].toolStart|
    ensures n <= |Written(d.table[0], content, cs)| &&
            SpellingIn(d.table, Written(d.table[0], content, cs)[..n]) == None
  {
    hide PlainContent, WellFormed, Contains, Written, Unambiguous, SpellingIn, InvokesText;
    var scan := (content + "\n\n" + d.table[0].toolStart)[..n];
    WrittenBegins(d.table[0], content, cs, n);
    forall i | 0 <= i < |d.table| ensures !Contains(scan, d.table[i].toolStart) {
      NoWrapperYet(d, content, i, n);
    }
    NoSpelling(d.table, scan);
  }

  lemma WrittenBegins(syn: Syntax, content: string, cs: seq<Request>, n: nat)
    requires cs != [] && n < |content + "\n\n" + syn.toolStart|
    ensures n <= |Written(syn, content, cs)|
    ensures Written(syn, content, cs)[..n] == (content + "\n\n" + syn.toolStart)[..n]
  {
    hide WellFormed, InvokesText;
    assert Written(syn, content, cs) == content + "\n\n" + syn.toolStart + InvokesText(syn, cs);
  }

  lemma NoWrapperYet(d: Reader, content: string, i: nat, n: nat)
    requires !IsXml(d.dialect) && PlainContent(d, content) && Unambiguous(d.table) && i < |d.table|
    requires n < |content + "\n\n" + d.table[0].toolStart|
    ensures !Contains((content + "\n\n" + d.table[0].toolStart)[..n], d.table[i].toolStart)
  {
    hide PlainContent, WellFormed, Index, Unambiguous;
    var scan, u := (content + "\n\n" + d.table[0].toolStart)[..n], d.table[i].toolStart;
    IndexIsFirst(scan, u);
    forall j | 0 <= j <= n ensures !(u <= scan[j..]) {
      WrapperNotYet(d, content, i, j, n);
    }
  }

  lemma WrapperNotYet(d: Reader, content: string, i: nat, j: nat, n: nat)
    requires !IsXml(d.dialect) && PlainContent(d, content) && Unambiguous(d.table) && i < |d.table| && j <= n
    requires n < |content + "\n\n" + d.table[0].toolStart|
    ensures !(d.table[i].toolStart <= (content + "\n\n" + d.table[0].toolStart)[..n][j..])
  {
    hide PlainContent, WellFormed, IsOpener, Unambiguous;
    var t, u := d.table[0].toolStart, d.table[i].toolStart;
    SyntaxOpens(d.table[i]);
    SyntaxOpens(d.table[0]);
    if j < |content| {
      ContentOpensNothing(d, content, i, j);
    }
    NoPartOfWrapper(d.table, i);
    if u <= (content + "\n\n" + t)[..n][j..] {
      OpenerInside(content, t, u, j, n);
    }
  }

  /** Where an opener lies in content and the beginning of a wrapper. */
  lemma OpenerInside(content: string, t: string, u: string, j: nat, n: nat)
    requires IsOpener(t) && IsOpener(u) && j <= n < |content + "\n\n" + t|
    requires u <= (content + "\n\n" + t)[..n][j..]
    ensures if j < |content| then u <= content[j..] else u < t
  {
    var x := content + "\n\n" + t;
    assert forall k :: 0 <= k < |u| ==> u[k] == x[..n][j..][k] == x[j + k];
    if j < |content| {
      assert |u| <= |content| - j by {
        assert x[|content|] == '\n' && forall k :: 0 < k < |u| ==> u[k] == u[1..][k - 1];
      }
      assert u == content[j..][..|u|];
    } else {
      assert x[j] == '<' && forall k :: |content| + 2 < k < |x| ==> x[k] == t[1..][k - |content| - 3];
      assert u == t[..|u|];
    }
  }

  lemma NoPartOfWrapper(table: seq<Syntax>, i: nat)
    requires Unambiguous(table) && i < |table|
    ensures !(table[i].toolStart < table[0].toolStart)
  {
    hide WellFormed;
    assert table[i] == table[0] || Apart(table[i].toolStart, table[0].toolStart);
  }

  // ----- every cut -----

  lemma WrappersCloseAtEnd(d: Reader)
    requires d.xml == XmlForms()
    ensures CloseAtEnd(Wrappers(d))
  {
    hide Wrappers, V4, V41, XmlForms, WellFormed;
    WrappersAre(d);
    var ws := Wrappers(d);
    forall i | 0 <= i < |ws| ensures '>' !in Until(ws[i].0, |ws[i].0| - 1) {
      if i < 3 {
        BlockSpelling.TablesQuote(Dsml, i);
      } else if i < 5 {
        BlockSpelling.TablesQuote(Dsml41, i - 3);
      } else {
        XmlCloseAtEnd(d.xml);
      }
    }
  }

  lemma XmlCloseAtEnd(x: XmlSyntax)
    requires x == XmlForms()
    ensures '>' !in Until(x.keyStart, |x.keyStart| - 1) && '>' !in Until(x.valueStart, |x.valueStart| - 1)
    ensures '>' !in Until(x.paramStart, |x.paramStart| - 1)
  {
    hide XmlWellFormed;
    assert x.keyStart == "<" + "arg_key" + ">" && x.valueStart == "<" + "arg_value" + ">";
    assert x.paramStart == "<" + "parameter" + "=";
  }

  predicate AtBreak(syn: Syntax, content: string, cs: seq<Request>, n: nat) {
    exists k :: 0 <= k <= |cs| && CutBehind(syn, content, cs, k, n)
  }

  /** What is behind the reasoning is repaired exactly when it was cut between two calls. */
  lemma ScanRepaired(d: Reader, lead: string, content: string, cs: seq<Request>, n: nat)
    requires !IsXml(d.dialect) && d.table != [] && Unambiguous(d.table) && PlainContent(d, content) && cs != []
    requires Writable(d.table[0]) && AllTold(d.table[0]) && LacksTags(d.table[0], content, cs)
    requires n <= |Written(d.table[0], content, cs)|
    requires AfterReasoning(d, lead + Written(d.table[0], content, cs)[..n]) == Written(d.table[0], content, cs)[..n]
    ensures var syn := d.table[0];
            var cut := lead + Written(syn, content, cs)[..n];
            Repaired(d, cut) == if AtBreak(syn, content, cs, n) then Some(cut + syn.toolEnd) else None
  {
    hide Repaired, AfterReasoning, WellFormed, Count, LacksTags, AllTold, Writable, Written, CutReply, Index,
         Unambiguous, PlainContent, LostWrapper, SpellingIn, CallStart, NextTag;
    var syn := d.table[0];
    var scan := Written(syn, content, cs)[..n];
    FirstStart(syn, content, cs);
    if n < CallStart(syn, content, cs, 0) - 1 {
      CutInFront(d, content, cs, n);
      forall k | 0 <= k <= |cs| ensures !CutBehind(syn, content, cs, k, n) {
        if k > 0 {
          StartsGrow(syn, content, cs, 0, k);
        }
      }
      NotRepaired(d, lead + scan, scan, syn);
    } else {
      var k := CallsInFront(syn, content, cs, n);
      WrapperThere(d.table, syn, content, cs, n);
      if CutBehind(syn, content, cs, k, n) {
        CutBetween(syn, content, cs, k, n);
        RepairedIs(d, lead + scan, scan, syn);
      } else {
        NoOtherBreak(syn, content, cs, k, n);
        if k < |cs| {
          NextCall(syn, content, cs, k);
        }
        BreakEnds(syn, content, cs, k, n);
        CutElsewhere(syn, content, cs, k, n);
        NotRepaired(d, lead + scan, scan, syn);
      }
    }
  }

  lemma BreakEnds(syn: Syntax, content: string, cs: seq<Request>, k: nat, n: nat)
    requires k <= |cs| && !CutBehind(syn, content, cs, k, n) && CallStart(syn, content, cs, k) - 1 <= n
    ensures CallStart(syn, content, cs, k) + |NextTag(syn, cs, k)| <= n
  {}

  lemma FirstStart(syn: Syntax, content: string, cs: seq<Request>)
    ensures CallStart(syn, content, cs, 0) - 1 == |content + "\n\n" + syn.toolStart|
  {
    hide WellFormed;
    assert cs[..0] == [];
  }

  lemma NotRepaired(d: Reader, text: string, scan: string, syn: Syntax)
    requires !IsXml(d.dialect) && AfterReasoning(d, text) == scan
    requires SpellingIn(d.table, scan) == None || (SpellingIn(d.table, scan) == Some(syn) && !LostWrapper(syn, scan))
    ensures Repaired(d, text) == None
  {
    hide AfterReasoning, WellFormed, LostWrapper, SpellingIn;
  }

  lemma WrapperThere(table: seq<Syntax>, syn: Syntax, content: string, cs: seq<Request>, n: nat)
    requires table != [] && table[0] == syn && cs != []
    requires CallStart(syn, content, cs, 0) - 1 <= n <= |Written(syn, content, cs)|
    ensures SpellingIn(table, Written(syn, content, cs)[..n]) == Some(syn)
  {
    hide WellFormed, InvokesText, CallStart;
    FirstStart(syn, content, cs);
    var t, at := Written(syn, content, cs)[..n], |content| + 2;
    IndexIsFirst(t, syn.toolStart);
    assert t[at..][..|syn.toolStart|] == syn.toolStart;
    assert syn.toolStart <= t[at..];
  }

  /** A cut behind `k` calls and inside the next, or behind them all, is behind no other number of calls. */
  lemma NoOtherBreak(syn: Syntax, content: string, cs: seq<Request>, k: nat, n: nat)
    requires k <= |cs| && CallStart(syn, content, cs, k) - 1 <= n && !CutBehind(syn, content, cs, k, n)
    requires k < |cs| ==> n < CallStart(syn, content, cs, k + 1) - 1
    ensures !AtBreak(syn, content, cs, n)
  {
    hide CallStart;
    forall j | 0 <= j <= |cs| ensures !CutBehind(syn, content, cs, j, n) {
      if j < k {
        StartsGrow(syn, content, cs, j, k);
      } else if j > k + 1 {
        StartsGrow(syn, content, cs, k + 1, j);
      }
    }
  }

  /** Every cut of a written turn: it is repaired, by the lost close tag, exactly when it falls between two calls. Cut
      inside a call, whatever its values hold, it stays as it is. */
  lemma CutsRepaired(dialect: Dialect, json: Json, literal: string -> bool, thinking: bool, reasoning: string,
          content: string, cs: seq<Request>, n: nat)
    requires IsBlockDialect(dialect) && Repairable(dialect, json, literal, content, cs)
    requires thinking ==> BodiesClose(Wrappers(ReaderOf(dialect, json, literal)), reasoning)
    requires n <= |Written(Rendered(dialect), content, cs)|
    ensures var d, syn := ReaderOf(dialect, json, literal), Rendered(dialect);
            var cut := (if thinking then THINK_START + reasoning + THINK_END else "") + Written(syn, content, cs)[..n];
            Repaired(d, cut) == if AtBreak(syn, content, cs, n) then Some(cut + syn.toolEnd) else None
  {
    hide Repaired, WellFormed, LacksTags, AllTold, Writable, PlainContent, Readable, ParseContent, ParseCompletion,
         TrimSpace, BodiesClose, UpToEos, Structural, Passable, Wrappers, LastStructural, Table, XmlForms,
         Unambiguous, Rendered, AtBreak, BlockText, CloseAtEnd;
    var d, syn := ReaderOf(dialect, json, literal), Rendered(dialect);
    DialectReady(dialect, json, literal);
    ReadableRenders(Block(syn, false, json, false), cs);
    var ws, scan := Wrappers(d), Written(syn, content, cs)[..n];
    CutHasNoCloser(ws, syn, content, cs);
    WrappersCloseAtEnd(d);
    StructuralOpens(ws);
    CutHasNone(ws, Written(syn, content, cs), n);
    if thinking {
      ThinkingReads(d, reasoning, scan);
      assert var a := THINK_START + reasoning;
             |a| + |THINK_END| <= |a + THINK_END + scan| && (a + THINK_END + scan)[|a| + |THINK_END|..] == scan;
      ScanRepaired(d, THINK_START + reasoning + THINK_END, content, cs, n);
    } else {
      assert "" + scan == scan;
      ScanRepaired(d, "", content, cs, n);
    }
  }

  /** In particular no value is closed that was cut short: a cut behind the tag that opens a call and in front of the
      end of that call is never repaired. */
  lemma CutCallIsLeftOpen(dialect: Dialect, json: Json, literal: string -> bool, content: string, cs: seq<Request>,
          k: nat, m: nat)
    requires IsBlockDialect(dialect) && Repairable(dialect, json, literal, content, cs) && k < |cs|
    requires |Rendered(dialect).invokeStart| <= m < |InvokeText(Rendered(dialect), cs[k])|
    ensures var d, syn := ReaderOf(dialect, json, literal), Rendered(dialect);
            Repaired(d, CutReply(syn, content, cs[..k]) + InvokeText(syn, cs[k])[..m]) == None
  {
    hide Repaired, WellFormed, Repairable, Table, XmlForms, Rendered, AtBreak, BlockText, CallStart, Written,
         InvokeText, CutReply, InvokesText;
    var syn := Rendered(dialect);
    var n := CallStart(syn, content, cs, k) + m;
    StartIs(syn, content, cs, k);
    WrittenSplits(syn, content, cs, k);
    NextCall(syn, content, cs, k);
    NoOtherBreak(syn, content, cs, k, n);
    CutsRepaired(dialect, json, literal, false, "", content, cs, n);
    assert Written(syn, content, cs)[..n] == CutReply(syn, content, cs[..k]) + InvokeText(syn, cs[k])[..m];
    assert "" + Written(syn, content, cs)[..n] == Written(syn, content, cs)[..n];
  }

  lemma StartIs(syn: Syntax, content: string, cs: seq<Request>, k: nat)
    requires k <= |cs|
    ensures CallStart(syn, content, cs, k) == |CutReply(syn, content, cs[..k])|
  {}

  lemma StructuralOpens(ws: seq<(string, string)>)
    requires Structural(ws)
    ensures PlainOpeners(ws) && Openers(ws)
  {}
}
