/** Completions that lost only the wrapper's close tag to the token limit (dsml/repair.go). */
module Repair {
  import opened Text
  import opened ToolText
  import opened Markup
  import opened Calls
  import opened Grammar
  import opened Phases
  import opened Transitions
  import opened Decode
  import opened Completion
  import opened StructuralScan
  import opened Encode
  import opened RoundTrip
  import opened MessageRoundTrip

  /** `strings.Count` of a tag: occurrences that do not overlap. */
  function Count(s: string, p: string): nat
    decreases |s|
  {
    if s == "" || p == "" then 0 else if p <= s then 1 + Count(s[|p|..], p) else Count(s[1..], p)
  }

  /** The first spelling whose wrapper occurs. */
  function SpellingIn(table: seq<Syntax>, scan: string): Option<Syntax> {
    if table == [] then None else if Contains(scan, table[0].toolStart) then Some(table[0])
        else SpellingIn(table[1..], scan)
  }

  /** The part of a completion after its reasoning. */
  function AfterReasoning(d: Reader, text: string): string {
    var end := LastStructural(Wrappers(d), text, THINK_END);
    if end < 0 then text else text[end + |THINK_END|..]
  }

  /** Every element but the wrapper is closed, and wrappers are missing. */
  predicate LostWrapper(syn: Syntax, scan: string) {
    && Count(scan, syn.invokeStart) == Count(scan, syn.invokeEnd)
    && Count(scan, syn.paramStart) == Count(scan, syn.paramEnd)
    && Count(scan, syn.toolStart) > Count(scan, syn.toolEnd)
  }

  function Repeat(s: string, n: nat): string {
    if n == 0 then "" else Repeat(s, n - 1) + s
  }

  /** `RepairCompletionSyntax`, on text whose markers are already normalised: the repaired text, if any. */
  function Repaired(d: Reader, text: string): Option<string> {
    if IsXml(d.dialect) then None
    else
      var scan := AfterReasoning(d, text);
      match SpellingIn(d.table, scan)
      case None => None
      case Some(syn) =>
        if !LostWrapper(syn, scan) then None
        else Some(text + Repeat(syn.toolEnd, Count(scan, syn.toolStart) - Count(scan, syn.toolEnd)))
  }

  method RepairCompletion(d: Reader, text: string) returns (r: Option<string>)
    ensures r == Repaired(d, text)
  {
    hide Count, LastStructural, WellFormed, Index, Wrappers;
    if IsXml(d.dialect) {
      return None;
    }
    var scanFrom := 0;
    var end := LastStructuralIndex(Wrappers(d), text, THINK_END);
    if end >= 0 {
      scanFrom := end + |THINK_END|;
    }
    var scan := text[scanFrom..];
    var found := None;
    var i := 0;
    while i < |d.table| && found == None
      invariant 0 <= i <= |d.table|
      invariant SpellingIn(d.table, scan) == if found == None then SpellingIn(d.table[i..], scan) else found
    {
      if Contains(scan, d.table[i].toolStart) {
        found := Some(d.table[i]);
      }
      assert d.table[i..][1..] == d.table[i + 1..];
      i := i + 1;
    }
    if found == None {
      return None;
    }
    var syn := found.value;
    var toolOpen, toolClose := Count(scan, syn.toolStart), Count(scan, syn.toolEnd);
    if Count(scan, syn.invokeStart) != Count(scan, syn.invokeEnd) ||
        Count(scan, syn.paramStart) != Count(scan, syn.paramEnd) {
      return None;
    }
    if toolOpen <= toolClose {
      return None;
    }
    var b := text;
    var k := 0;
    while k < toolOpen - toolClose
      invariant 0 <= k <= toolOpen - toolClose
      invariant b == text + Repeat(syn.toolEnd, k)
    {
      b := b + syn.toolEnd;
      assert text + Repeat(syn.toolEnd, k) + syn.toolEnd == text + (Repeat(syn.toolEnd, k) + syn.toolEnd);
      k := k + 1;
    }
    return Some(b);
  }

  // ----- counting tags in written text -----

  /** A tag: one `<`, in front, and no line break. */
  predicate IsTag(p: string) {
    p != "" && p[0] == '<' && forall i :: 0 < i < |p| ==> p[i] != '<' && p[i] != '\n'
  }

  /** A tag that is `p` or differs from it. */
  predicate Told(p: string, tag: string) {
    IsTag(tag) && (tag == p || Apart(tag, p))
  }

  function Hit(p: string, tag: string): nat {
    if tag == p then 1 else 0
  }

  /** Nothing counts in text without `<`. */
  lemma {:induction false} CountPlain(p: string, w: string, r: string)
    requires IsTag(p) && forall i :: 0 <= i < |w| ==> w[i] != '<'
    ensures Count(w + r, p) == Count(r, p)
  {
    if w == "" {
      assert w + r == r;
    } else {
      assert (w + r)[0] == w[0] && (w + r)[1..] == w[1..] + r;
      CountPlain(p, w[1..], r);
    }
  }

  lemma CountTag(p: string, tag: string, r: string)
    requires IsTag(p) && Told(p, tag)
    ensures Count(tag + r, p) == Hit(p, tag) + Count(r, p)
  {
    var s := tag + r;
    if tag == p {
      assert s[|p|..] == r;
    } else {
      ApartIsFinal(tag, tag, p, r);
      assert s[1..] == tag[1..] + r;
      CountPlain(p, tag[1..], r);
    }
  }

  /** Text that does not hold `p`, in front of a `<` or a line break. */
  lemma {:induction false} CountAbsent(p: string, w: string, r: string)
    requires IsTag(p) && !Contains(w, p) && r != "" && (r[0] == '<' || r[0] == '\n')
    ensures Count(w + r, p) == Count(r, p)
  {
    IndexIsFirst(w, p);
    if w == "" {
      assert w + r == r;
    } else {
      assert w[0..] == w;
      assert !(p <= w + r) by {
        PrefixExtends(w, r, p);
        if |p| > |w| {
          assert (w + r)[|w|] == r[0];
        }
      }
      IndexIsFirst(w[1..], p);
      forall j | 0 <= j <= |w[1..]| ensures !(p <= w[1..][j..]) {
        assert w[1..][j..] == w[j + 1..];
      }
      assert (w + r)[1..] == w[1..] + r;
      CountAbsent(p, w[1..], r);
    }
  }

  /** The tags of a spelling, told apart from each other. */
  predicate TagsTold(syn: Syntax, p: string) {
    && IsTag(p) && Told(p, syn.toolStart) && Told(p, syn.toolEnd) && Told(p, syn.invokeStart) && Told(p, syn.invokeEnd)
    && Told(p, syn.paramStart) && Told(p, syn.paramEnd) && '\\' !in p && p[1..] != "" && Plain(p[1..])
  }

  /** A value in whose text no tag `p` occurs. */
  predicate ValueLacks(v: Value, p: string) {
    match v
    case Str(s) => !Contains(s, p)
    case Null => true
    case Literal(s) => !Contains(s, p)
  }

  predicate PairsLack(pairs: seq<Argument>, p: string) {
    forall i :: 0 <= i < |pairs| ==> ValueLacks(pairs[i].value, p)
  }

  predicate RequestsLack(cs: seq<Request>, p: string) {
    forall i :: 0 <= i < |cs| ==> PairsLack(PairsOf(cs[i].input), p)
  }

  /** Escaping makes no tag. */
  lemma {:induction false} EscapeMakesNone(s: string, end: string, p: string)
    requires IsCloseTag(end) && p != "" && p[0] == '<' && Plain(p[1..]) && !Contains(s, p)
    ensures !Contains(Escape(s, end), p)
  {
    IndexIsFirst(s, p);
    IndexIsFirst(Escape(s, end), p);
    if s != "" {
      assert s[0..] == s;
      IndexIsFirst(s[1..], p);
      forall j | 0 <= j <= |s[1..]| ensures !(p <= s[1..][j..]) {
        assert s[1..][j..] == s[j + 1..];
      }
      EscapeMakesNone(s[1..], end, p);
      var head, e := EscapedByte(s, end), Escape(s[1..], end);
      IndexIsFirst(e, p);
      TagWasThere(s, end, p);
      forall j | 0 <= j <= |head + e| ensures !(p <= (head + e)[j..]) {
        if j >= |head| {
          assert (head + e)[j..] == e[j - |head|..];
        } else {
          assert (head + e)[j..][0] == head[j];
          assert (head + e)[0..] == head + e;
        }
      }
    } else {
      assert Escape("", end) == "";
    }
  }

  lemma TagWasThere(s: string, end: string, p: string)
    requires IsCloseTag(end) && s != "" && p != "" && p[0] == '<' && Plain(p[1..]) && !(p <= s)
    ensures !(p <= EscapedByte(s, end) + Escape(s[1..], end))
    ensures forall j :: 0 < j < |EscapedByte(s, end)| ==> EscapedByte(s, end)[j] != '<'
  {
    var r := EscapedByte(s, end) + Escape(s[1..], end);
    if EscapedByte(s, end) == [s[0]] && s[0] == '<' {
      EscapeShowsPlain(p[1..], s[1..], end);
      ConsPrefix(s[0], Escape(s[1..], end), p);
      ConsPrefix(s[0], s[1..], p);
      assert s == [s[0]] + s[1..];
    }
  }

  lemma ConsPrefix(c: char, e: string, p: string)
    requires p != ""
    ensures p <= [c] + e <==> p[0] == c && p[1..] <= e
  {
    assert ([c] + e)[1..] == e;
    if p <= [c] + e {
      assert p == ([c] + e)[..|p|];
      assert p[1..] == e[..|p| - 1];
    }
    if p[0] == c && p[1..] <= e {
      assert p == [c] + p[1..];
    }
  }

  /** Spelling close tags with a JSON escape makes no tag. */
  lemma {:induction false} LiteralMakesNone(s: string, end: string, p: string)
    requires LiteralSafe(end) && p != "" && p[0] == '<' && Plain(p[1..]) && '\\' !in p && !Contains(s, p)
    ensures !Contains(EscapeLiteral(s, end), p)
    decreases |s|
  {
    hide WellFormed;
    IndexIsFirst(s, p);
    if s == "" {
      assert EscapeLiteral(s, end) == "";
    } else {
      var n := if end <= s then |end| else 1;
      var head := if end <= s then ESCAPED_ANGLE + end[1..] else [s[0]];
      var e := EscapeLiteral(s[n..], end);
      assert EscapeLiteral(s, end) == head + e;
      IndexIsFirst(s[n..], p);
      forall j | 0 <= j <= |s[n..]| ensures !(p <= s[n..][j..]) {
        assert s[n..][j..] == s[j + n..];
      }
      LiteralMakesNone(s[n..], end, p);
      LiteralFront(s, end, p, head, e);
      IndexIsFirst(e, p);
      IndexIsFirst(head + e, p);
      forall j | 0 <= j <= |head + e| ensures !(p <= (head + e)[j..]) {
        if j >= |head| {
          assert (head + e)[j..] == e[j - |head|..];
        } else {
          assert (head + e)[j..][0] == head[j];
          assert (head + e)[0..] == head + e;
        }
      }
    }
  }

  lemma LiteralFront(s: string, end: string, p: string, head: string, e: string)
    requires LiteralSafe(end) && s != "" && p != "" && p[0] == '<' && Plain(p[1..]) && '\\' !in p && !(p <= s)
    requires head == (if end <= s then ESCAPED_ANGLE + end[1..] else [s[0]])
    requires e == EscapeLiteral(s[if end <= s then |end| else 1..], end)
    ensures !(p <= head + e)
    ensures forall j :: 0 < j < |head| ==> head[j] != '<'
  {
    hide EscapeLiteral;
    if end <= s {
      assert (ESCAPED_ANGLE + end[1..] + e)[0] == '\\';
      assert forall j :: 0 <= j < |ESCAPED_ANGLE + end[1..]| ==> (ESCAPED_ANGLE + end[1..])[j] != '<';
    } else {
      LiteralTail(s[1..], p[1..], end);
      ConsPrefix(s[0], e, p);
      ConsPrefix(s[0], s[1..], p);
      assert s == [s[0]] + s[1..];
    }
  }

  lemma ValueTextLacks(syn: Syntax, v: Value, p: string)
    requires Writable(syn) && TagsTold(syn, p) && ValueLacks(v, p)
    ensures !Contains(ValueText(syn, v).0, p)
  {
    hide Escape, EscapeLiteral, WellFormed, Index, Told;
    CloseTags(syn);
    match v
    case Str(s) => EscapeMakesNone(s, syn.paramEnd, p);
    case Null =>
      assert Index("", p) < 0 by {
        IndexIsFirst("", p);
      }
      EscapeMakesNone("", syn.paramEnd, p);
    case Literal(s) => LiteralMakesNone(s, syn.paramEnd, p);
  }

  lemma ParamCounts(syn: Syntax, a: Argument, p: string, r: string)
    requires Writable(syn) && TagsTold(syn, p) && ValueLacks(a.value, p)
    ensures Count(ParamText(syn, a) + r, p) == Hit(p, syn.paramStart) + Hit(p, syn.paramEnd) + Count(r, p)
  {
    hide Count, ValueText, AttrEscape, WellFormed, Told, Writable, ValueLacks;
    var v := ValueText(syn, a.value);
    var flag := " name=\"" + AttrEscape(a.key) + "\" string=\"" + BoolText(v.1) + "\">";
    var tail := v.0 + (syn.paramEnd + r);
    assert ParamText(syn, a) + r == syn.paramStart + (flag + tail);
    AttrClean(a.key);
    CountTag(p, syn.paramStart, flag + tail);
    CountPlain(p, flag, tail);
    assert Count(ValueText(syn, a.value).0 + (syn.paramEnd + r), p) == Hit(p, syn.paramEnd) + Count(r, p) by {
      assert Writable(syn) && TagsTold(syn, p) && ValueLacks(a.value, p);
      hide Index;
      ValueTextLacks(syn, a.value, p);
      CloseTags(syn);
      CountAbsent(p, ValueText(syn, a.value).0, syn.paramEnd + r);
      CountTag(p, syn.paramEnd, r);
    }
  }

  lemma {:induction false} ParamsCount(syn: Syntax, pairs: seq<Argument>, p: string, r: string)
    requires Writable(syn) && TagsTold(syn, p) && PairsLack(pairs, p)
    ensures Count(ParamsText(syn, pairs) + r, p) ==
            |pairs| * (Hit(p, syn.paramStart) + Hit(p, syn.paramEnd)) + Hit(p, syn.invokeEnd) + Count(r, p)
    decreases |pairs|
  {
    hide Count, ParamText, WellFormed, Writable, Hit, IsTag, Told, Plain;
    if pairs == [] {
      assert ParamsText(syn, pairs) + r == "\n" + (syn.invokeEnd + r);
      CountPlain(p, "\n", syn.invokeEnd + r);
      CountTag(p, syn.invokeEnd, r);
    } else {
      var tail := ParamsText(syn, pairs[1..]) + r;
      assert ParamsText(syn, pairs) + r == "\n" + (ParamText(syn, pairs[0]) + tail);
      CountPlain(p, "\n", ParamText(syn, pairs[0]) + tail);
      ParamCounts(syn, pairs[0], p, tail);
      ParamsCount(syn, pairs[1..], p, r);
    }
  }

  lemma InvokeCounts(syn: Syntax, c: Request, p: string, r: string)
    requires Writable(syn) && TagsTold(syn, p) && PairsLack(PairsOf(c.input), p)
    ensures Count(InvokeText(syn, c) + r, p) ==
            Hit(p, syn.invokeStart) + |PairsOf(c.input)| * (Hit(p, syn.paramStart) + Hit(p, syn.paramEnd)) +
                Hit(p, syn.invokeEnd) + Count(r, p)
  {
    hide Count, ParamsText, AttrEscape, WellFormed;
    var flag := " name=\"" + AttrEscape(c.name) + "\">";
    var tail := ParamsText(syn, PairsOf(c.input)) + r;
    assert InvokeText(syn, c) + r == syn.invokeStart + (flag + tail);
    AttrClean(c.name);
    CountTag(p, syn.invokeStart, flag + tail);
    CountPlain(p, flag, tail);
    ParamsCount(syn, PairsOf(c.input), p, r);
  }

  /** The calls of a block up to its missing close tag. */
  function OpenInvokes(syn: Syntax, cs: seq<Request>): string {
    if cs == [] then "\n" else "\n" + InvokeText(syn, cs[0]) + OpenInvokes(syn, cs[1..])
  }

  lemma {:induction false} OpenThenClosed(syn: Syntax, cs: seq<Request>)
    ensures OpenInvokes(syn, cs) + syn.toolEnd == InvokesText(syn, cs)
  {
    hide InvokeText;
    if cs != [] {
      OpenThenClosed(syn, cs[1..]);
      assert "\n" + InvokeText(syn, cs[0]) + OpenInvokes(syn, cs[1..]) + syn.toolEnd
          == "\n" + InvokeText(syn, cs[0]) + (OpenInvokes(syn, cs[1..]) + syn.toolEnd);
    }
  }

  function Parameters(cs: seq<Request>): nat {
    if cs == [] then 0 else |PairsOf(cs[0].input)| + Parameters(cs[1..])
  }

  lemma {:induction false} OpenCounts(syn: Syntax, cs: seq<Request>, p: string)
    requires Writable(syn) && TagsTold(syn, p) && RequestsLack(cs, p)
    ensures Count(OpenInvokes(syn, cs), p) ==
            |cs| * (Hit(p, syn.invokeStart) + Hit(p, syn.invokeEnd)) +
                Parameters(cs) * (Hit(p, syn.paramStart) + Hit(p, syn.paramEnd))
  {
    hide Count, InvokeText, WellFormed, Writable, TagsTold, Hit;
    if cs == [] {
      OpenNothing(p);
      ToldIsTag(syn, p);
    } else {
      var tail := OpenInvokes(syn, cs[1..]);
      assert OpenInvokes(syn, cs) == "\n" + (InvokeText(syn, cs[0]) + tail);
      CountBreak(p, syn, InvokeText(syn, cs[0]) + tail);
      InvokeCounts(syn, cs[0], p, tail);
      OpenCounts(syn, cs[1..], p);
      Distribute(|PairsOf(cs[0].input)|, Parameters(cs[1..]), Hit(p, syn.paramStart) + Hit(p, syn.paramEnd));
      Distribute(1, |cs[1..]|, Hit(p, syn.invokeStart) + Hit(p, syn.invokeEnd));
    }
  }

  lemma ToldIsTag(syn: Syntax, p: string)
    requires TagsTold(syn, p)
    ensures p != "" && p[0] == '<'
  {}

  lemma CountBreak(p: string, syn: Syntax, r: string)
    requires TagsTold(syn, p)
    ensures Count("\n" + r, p) == Count(r, p)
  {
    CountPlain(p, "\n", r);
  }

  lemma OpenNothing(p: string)
    ensures p != "" && p[0] == '<' ==> Count("\n", p) == 0
  {
    assert "\n"[1..] == "";
    assert "\n"[0] == '\n';
  }

  lemma Distribute(a: nat, b: nat, c: nat)
    ensures (a + b) * c == a * c + b * c
  {}

  function TagList(syn: Syntax): (tags: seq<string>)
    ensures |tags| == 6
  {
    [syn.toolStart, syn.toolEnd, syn.invokeStart, syn.invokeEnd, syn.paramStart, syn.paramEnd]
  }

  /** Six tags told apart, none of which a JSON escape can complete. */
  predicate AllTold(syn: Syntax) {
    var tags := TagList(syn);
    && (forall i :: 0 <= i < 6 ==> IsTag(tags[i]) && '\\' !in tags[i] && tags[i][1..] != "" && Plain(tags[i][1..]))
    && (forall i, j :: 0 <= i < 6 && 0 <= j < 6 && i != j ==> Apart(tags[i], tags[j]))
  }

  lemma ToldOf(syn: Syntax, k: nat)
    requires AllTold(syn) && k < 6
    ensures TagsTold(syn, TagList(syn)[k])
    ensures forall j :: 0 <= j < 6 ==> Hit(TagList(syn)[k], TagList(syn)[j]) == if j == k then 1 else 0
  {
    hide WellFormed;
    var tags := TagList(syn);
    forall j | 0 <= j < 6 ensures Told(tags[k], tags[j]) && (j != k ==> tags[j] != tags[k]) {
      if j != k {
        assert Apart(tags[j], tags[k]);
      }
    }
    assert tags[0] == syn.toolStart && tags[1] == syn.toolEnd && tags[2] == syn.invokeStart
        && tags[3] == syn.invokeEnd && tags[4] == syn.paramStart && tags[5] == syn.paramEnd;
  }

  /** Neither the content nor any value holds a tag of the spelling. */
  predicate LacksTags(syn: Syntax, content: string, cs: seq<Request>) {
    forall k :: 0 <= k < 6 ==> !Contains(content, TagList(syn)[k]) && RequestsLack(cs, TagList(syn)[k])
  }

  /** A reply that lost the wrapper's close tag. */
  function CutReply(syn: Syntax, content: string, cs: seq<Request>): string {
    content + "\n\n" + syn.toolStart + OpenInvokes(syn, cs)
  }

  lemma CutCounts(syn: Syntax, content: string, cs: seq<Request>, p: string)
    requires Writable(syn) && TagsTold(syn, p) && RequestsLack(cs, p) && !Contains(content, p)
    ensures Count(CutReply(syn, content, cs), p) == Hit(p, syn.toolStart) + Count(OpenInvokes(syn, cs), p)
  {
    hide Count, OpenInvokes, WellFormed, Index;
    var inner := OpenInvokes(syn, cs);
    var r := "\n\n" + (syn.toolStart + inner);
    assert CutReply(syn, content, cs) == content + r;
    CountAbsent(p, content, r);
    CountPlain(p, "\n\n", syn.toolStart + inner);
    CountTag(p, syn.toolStart, inner);
  }

  /** Losing only the wrapper close is recognised: every other element is balanced and one wrapper is open. */
  lemma CutIsRecognised(syn: Syntax, content: string, cs: seq<Request>)
    requires Writable(syn) && AllTold(syn) && LacksTags(syn, content, cs)
    ensures var scan := CutReply(syn, content, cs);
            LostWrapper(syn, scan) && Count(scan, syn.toolStart) == 1 && Count(scan, syn.toolEnd) == 0
  {
    hide Count, OpenInvokes, WellFormed, Index, CutReply, Writable, AllTold, RequestsLack;
    CountsOf(syn, content, cs, 0);
    CountsOf(syn, content, cs, 1);
    CountsOf(syn, content, cs, 2);
    CountsOf(syn, content, cs, 3);
    CountsOf(syn, content, cs, 4);
    CountsOf(syn, content, cs, 5);
  }

  lemma CountsOf(syn: Syntax, content: string, cs: seq<Request>, k: nat)
    requires Writable(syn) && AllTold(syn) && LacksTags(syn, content, cs) && k < 6
    ensures Count(CutReply(syn, content, cs), TagList(syn)[k]) ==
            if k == 0 then 1 else if k == 1 then 0 else if k < 4 then |cs| else Parameters(cs)
  {
    hide Count, OpenInvokes, WellFormed, Index, CutReply, Writable, RequestsLack, AllTold, TagsTold, Hit;
    var p := TagList(syn)[k];
    ToldOf(syn, k);
    CutCounts(syn, content, cs, p);
    OpenCounts(syn, cs, p);
    assert var p := TagList(syn)[k];
           && Hit(p, syn.toolStart) == (if k == 0 then 1 else 0)
           && Hit(p, syn.invokeStart) + Hit(p, syn.invokeEnd) == (if k == 2 || k == 3 then 1 else 0)
           && Hit(p, syn.paramStart) + Hit(p, syn.paramEnd) == (if k >= 4 then 1 else 0) by {
      var tags := TagList(syn);
      assert tags[0] == syn.toolStart && tags[2] == syn.invokeStart && tags[3] == syn.invokeEnd &&
             tags[4] == syn.paramStart && tags[5] == syn.paramEnd;
    }
    Weighted(|cs|, if k == 2 || k == 3 then 1 else 0);
    Weighted(Parameters(cs), if k >= 4 then 1 else 0);
  }

  lemma Weighted(n: nat, w: nat)
    requires w <= 1
    ensures n * w == if w == 1 then n else 0
  {}

  // ----- repairing a cut reply -----

  /** The structural scan finds no closer in a cut reply either, whatever its values hold. */
  lemma {:induction false} OpenSkips(ws: seq<(string, string)>, syn: Syntax, cs: seq<Request>)
    requires Passable(ws, syn) && Writable(syn) && forall i :: 0 <= i < |cs| ==> Renderable(cs[i])
    ensures LastStructural(ws, OpenInvokes(syn, cs), THINK_END) == -1
    decreases |cs|
  {
    hide LastStructural, InvokeText, WellFormed, Inert, Writable, Renderable;
    PlainIsInert(ws, "\n");
    NothingLeft(ws);
    if cs == [] {
      assert OpenInvokes(syn, cs) == "\n" + "";
      InertSkips(ws, "\n", "");
    } else {
      var tail := OpenInvokes(syn, cs[1..]);
      assert OpenInvokes(syn, cs) == "\n" + (InvokeText(syn, cs[0]) + tail);
      InertSkips(ws, "\n", InvokeText(syn, cs[0]) + tail);
      InvokeSkips(ws, syn, cs[0], tail);
      OpenSkips(ws, syn, cs[1..]);
    }
  }

  lemma CutHasNoCloser(ws: seq<(string, string)>, syn: Syntax, content: string, cs: seq<Request>)
    requires Structural(ws) && Passable(ws, syn) && Writable(syn) && BodiesClose(ws, content) && NoCloser(ws, content)
    requires cs != [] && forall i :: 0 <= i < |cs| ==> Renderable(cs[i])
    ensures NoCloser(ws, CutReply(syn, content, cs)) && NoCloser(ws, content + BlockText(syn, cs))
  {
    hide LastStructural, OpenInvokes, InvokesText, WellFormed, WrapperAt, Inert, BodiesClose, BlockText;
    var inner := OpenInvokes(syn, cs);
    var r := "\n\n" + (syn.toolStart + inner);
    assert CutReply(syn, content, cs) == content + r;
    PlainIsInert(ws, "\n\n");
    InertSkips(ws, "\n\n", syn.toolStart + inner);
    InertSkips(ws, syn.toolStart, inner);
    OpenSkips(ws, syn, cs);
    CloserInFront(ws, content, r);
    NothingLeft(ws);
    assert BlockText(syn, cs) + "" == BlockText(syn, cs);
    BlockHasNoCloser(ws, syn, cs, "");
    CloserInFront(ws, content, BlockText(syn, cs));
  }

  lemma RepairedIs(d: Reader, text: string, scan: string, syn: Syntax)
    requires !IsXml(d.dialect) && AfterReasoning(d, text) == scan && SpellingIn(d.table, scan) == Some(syn) &&
             LostWrapper(syn, scan)
    requires Count(scan, syn.toolStart) == 1 && Count(scan, syn.toolEnd) == 0
    ensures Repaired(d, text) == Some(text + syn.toolEnd)
  {
    hide AfterReasoning, WellFormed, Count, LostWrapper, SpellingIn;
    assert Repeat(syn.toolEnd, 1) == Repeat(syn.toolEnd, 0) + syn.toolEnd == syn.toolEnd;
  }

  lemma CutCloses(syn: Syntax, lead: string, content: string, cs: seq<Request>)
    requires cs != []
    ensures lead + CutReply(syn, content, cs) + syn.toolEnd == lead + (content + BlockText(syn, cs))
  {
    hide OpenInvokes, InvokesText, WellFormed;
    OpenThenClosed(syn, cs);
    var a := content + "\n\n" + syn.toolStart;
    assert lead + (a + OpenInvokes(syn, cs)) + syn.toolEnd == lead + (a + (OpenInvokes(syn, cs) + syn.toolEnd));
    assert a + InvokesText(syn, cs) == content + ("\n\n" + syn.toolStart + InvokesText(syn, cs));
  }

  /** The repair of a completion whose part after the reasoning is a cut reply supplies exactly the lost close tag. */
  lemma CutIsRepaired(d: Reader, lead: string, content: string, cs: seq<Request>)
    requires !IsXml(d.dialect) && d.table != [] && Writable(d.table[0]) && AllTold(d.table[0]) &&
             LacksTags(d.table[0], content, cs)
    requires AfterReasoning(d, lead + CutReply(d.table[0], content, cs)) == CutReply(d.table[0], content, cs) &&
             cs != []
    ensures var syn := d.table[0];
            Repaired(d, lead + CutReply(syn, content, cs)) == Some(lead + (content + BlockText(syn, cs)))
  {
    hide Repaired, AfterReasoning, WellFormed, Count, LacksTags, AllTold, Writable, CutReply, BlockText, Index,
         LostWrapper;
    var syn := d.table[0];
    CutIsRecognised(syn, content, cs);
    WrapperOccurs(syn, content, cs);
    RepairedIs(d, lead + CutReply(syn, content, cs), CutReply(syn, content, cs), syn);
    CutCloses(syn, lead, content, cs);
  }

  lemma WrapperOccurs(syn: Syntax, content: string, cs: seq<Request>)
    ensures Contains(CutReply(syn, content, cs), syn.toolStart)
  {
    hide OpenInvokes, WellFormed;
    var s := CutReply(syn, content, cs);
    IndexIsFirst(s, syn.toolStart);
    var n := |content| + 2;
    assert s[n..] == syn.toolStart + OpenInvokes(syn, cs);
    assert syn.toolStart <= s[n..];
  }

  /** What a turn needs to be written, read back and repaired. */
  predicate Repairable(dialect: Dialect, json: Json, literal: string -> bool, content: string, cs: seq<Request>)
    requires IsBlockDialect(dialect)
  {
    var d, syn := ReaderOf(dialect, json, literal), Rendered(dialect);
    var ws := Wrappers(d);
    && cs != [] && PlainContent(d, content) && BodiesClose(ws, content) && NoCloser(ws, content)
    && Readable(Block(syn, false, json, false), cs) && LacksTags(syn, content, cs)
  }

  /** A turn that lost only its wrapper close is recovered whole behind every reasoning whose argument bodies close:
      the repaired text is the turn that was written, and it reads back reasoning, content and calls. */
  lemma CutTurnRecovered(dialect: Dialect, json: Json, literal: string -> bool, reasoning: string, content: string,
          cs: seq<Request>)
    requires IsBlockDialect(dialect) && Repairable(dialect, json, literal, content, cs)
    ensures var d, syn := ReaderOf(dialect, json, literal), Rendered(dialect);
            var lead, written := THINK_START + reasoning + THINK_END, content + BlockText(syn, cs);
            var back := Parsed(TrimSpace(content), TrimSpace(reasoning),
                               AllReturned(json, ReadRequests(syn, cs), BlockText(syn, cs)), None);
            && (BodiesClose(Wrappers(d), reasoning) ==>
               Repaired(d, lead + CutReply(syn, content, cs)) == Some(lead + written))
            && (ParseCompletion(d, lead + written, true) == back <==> BodiesClose(Wrappers(d), reasoning))
  {
    hide Repaired, CutReply, WellFormed, LacksTags, AllTold, Writable, BlockText, PlainContent, Readable,
         ParseContent, ParseCompletion, TrimSpace, BodiesClose, NoCloser, AllReturned, ReadRequests, UpToEos,
         Structural, Passable, Wrappers, LastStructural, Table, XmlForms, Unambiguous, Rendered;
    var d, syn := ReaderOf(dialect, json, literal), Rendered(dialect);
    DialectReady(dialect, json, literal);
    ReadableRenders(Block(syn, false, json, false), cs);
    var lead, cut, written := THINK_START + reasoning + THINK_END, CutReply(syn, content, cs),
        content + BlockText(syn, cs);
    CutHasNoCloser(Wrappers(d), syn, content, cs);
    ThinkingReads(d, reasoning, cut);
    assert var a := THINK_START + reasoning;
           |a| + |THINK_END| <= |a + THINK_END + cut| && (a + THINK_END + cut)[|a| + |THINK_END|..] == cut;
    if BodiesClose(Wrappers(d), reasoning) {
      CutIsRepaired(d, lead, content, cs);
    }
    ThinkingReads(d, reasoning, written);
    NothingAfter("");
    assert written + "" == written;
    ReplyReads(d, content, cs, syn, "");
  }

  /** The same without reasoning. */
  lemma CutReplyRecovered(dialect: Dialect, json: Json, literal: string -> bool, content: string, cs: seq<Request>)
    requires IsBlockDialect(dialect) && Repairable(dialect, json, literal, content, cs)
    ensures var d, syn := ReaderOf(dialect, json, literal), Rendered(dialect);
            && Repaired(d, CutReply(syn, content, cs)) == Some(content + BlockText(syn, cs))
            && ParseCompletion(d, content + BlockText(syn, cs), false)
               == Parsed(TrimSpace(content), "", AllReturned(json, ReadRequests(syn, cs), BlockText(syn, cs)), None)
  {
    hide Repaired, CutReply, WellFormed, LacksTags, AllTold, Writable, BlockText, PlainContent, Readable,
         ParseContent, TrimSpace, BodiesClose, AllReturned, ReadRequests, UpToEos, Structural, Passable, Wrappers,
         LastStructural, Table, XmlForms, Unambiguous, Rendered;
    var d, syn := ReaderOf(dialect, json, literal), Rendered(dialect);
    DialectReady(dialect, json, literal);
    ReadableRenders(Block(syn, false, json, false), cs);
    var cut := CutReply(syn, content, cs);
    CutHasNoCloser(Wrappers(d), syn, content, cs);
    assert "" + cut == cut && "" + (content + BlockText(syn, cs)) == content + BlockText(syn, cs);
    CutIsRepaired(d, "", content, cs);
    NothingAfter("");
    assert content + BlockText(syn, cs) + "" == content + BlockText(syn, cs);
    ReplyReads(d, content, cs, syn, "");
  }

  lemma DialectReady(dialect: Dialect, json: Json, literal: string -> bool)
    requires IsBlockDialect(dialect)
    ensures var d, syn := ReaderOf(dialect, json, literal), Rendered(dialect);
            && !IsXml(d.dialect) && d.table != [] && d.table[0] == syn && syn in d.table && Unambiguous(d.table)
            && Writable(syn) && AllTold(syn) && Structural(Wrappers(d)) && Passable(Wrappers(d), syn)
  {
    hide WellFormed, Structural, Passable, Writable, Wrappers, XmlForms, Unambiguous, AllTold, FullTags, ShortTags,
         PlainTags;
    RenderedTags(dialect);
    TablesAreUnambiguous(dialect);
    DialectsPass(dialect, json, literal);
    RenderedTold(dialect);
  }

  /** The rendered tags of both dialects are told apart. */
  lemma RenderedTold(dialect: Dialect)
    requires IsBlockDialect(dialect)
    ensures AllTold(Rendered(dialect))
  {
    hide WellFormed, Rendered, TagList, Plain;
    var syn := Rendered(dialect);
    var tags := TagList(syn);
    forall i | 0 <= i < 6 ensures IsTag(tags[i]) && '\\' !in tags[i] && tags[i][1..] != "" && Plain(tags[i][1..]) {
      RenderedIsTag(dialect, i);
    }
    forall i, j | 0 <= i < 6 && 0 <= j < 6 && i != j ensures Apart(tags[i], tags[j]) {
      assert Apart(TagList(Rendered(dialect))[i], TagList(Rendered(dialect))[j]) by {
        var tags := TagList(Rendered(dialect));
        TellingBytes(dialect, i);
        TellingBytes(dialect, j);
        ProbesApart(tags[i], tags[j], if i % 2 != j % 2 then 1 else Telling(dialect, i));
      }
    }
  }

  /** Where an opening or a closing tag names its element. */
  function Telling(dialect: Dialect, i: nat): nat {
    11 + (if dialect == Dsml41 then 1 else 0) + i % 2
  }

  /** Closing tags have a slash after `<`; the name's first byte tells the elements apart. */
  lemma TellingBytes(dialect: Dialect, i: nat)
    requires IsBlockDialect(dialect) && i < 6
    ensures var t := TagList(Rendered(dialect))[i];
            && |t| > 13 && (t[1] == '/' <==> i % 2 == 1)
            && t[Telling(dialect, i)] ==
               (if i >= 4 then 'p' else if i >= 2 then 'i' else if dialect == Dsml then 't' else 'c')
  {
    hide WellFormed;
    RenderedTags(dialect);
  }

  /** What a rendered tag says behind its marker. */
  function TagTail(dialect: Dialect, i: nat): string
    requires IsBlockDialect(dialect)
  {
    var name := if i < 2 then BlockName(dialect) else if i < 4 then "invoke" else "parameter";
    if i == 2 || i == 4 then name else name + ">"
  }

  lemma TagParts(dialect: Dialect, i: nat)
    requires IsBlockDialect(dialect) && i < 6
    ensures TagList(Rendered(dialect))[i] ==
            (if i % 2 == 0 then "<" else "</") + (MARKER + Separator(dialect)) + TagTail(dialect, i)
  {
    hide WellFormed, Rendered;
    RenderedTags(dialect);
  }

  lemma RenderedIsTag(dialect: Dialect, i: nat)
    requires IsBlockDialect(dialect) && i < 6
    ensures var t := TagList(Rendered(dialect))[i]; IsTag(t) && '\\' !in t && t[1..] != "" && Plain(t[1..])
  {
    hide WellFormed, Rendered, TagList, IsTag, Plain, TagTail;
    TailIsPlain(dialect, i);
    MarkerIsClean(Separator(dialect));
    MarkerIsPlain(Separator(dialect));
    TagParts(dialect, i);
    TagOfParts(if i % 2 == 0 then "<" else "</", MARKER + Separator(dialect), TagTail(dialect, i));
  }

  lemma TailIsPlain(dialect: Dialect, i: nat)
    requires IsBlockDialect(dialect) && i < 6
    ensures var b := TagTail(dialect, i); b != "" && forall k :: 0 <= k < |b| ==> b[k] !in "<&\n" && b[k] != '\\'
  {}

  lemma MarkerIsPlain(sep: string)
    requires sep == "" || sep == " "
    ensures forall i :: 0 <= i < |MARKER + sep| ==> (MARKER + sep)[i] !in "<&\n"
  {
    NoneIn(BAR, "DSML", BAR, "<&\n");
    NoneIn(MARKER, sep, "", "<&\n");
    assert MARKER + sep + "" == MARKER + sep;
  }

  lemma TagOfParts(a: string, m: string, b: string)
    requires (a == "<" || a == "</") && |b| > 0
    requires (forall i :: 0 <= i < |m| ==> m[i] !in "<&\n" && m[i] != '\\') && forall i ::
             0 <= i < |b| ==> b[i] !in "<&\n" && b[i] != '\\'
    ensures var t := a + m + b; IsTag(t) && '\\' !in t && t[1..] != "" && Plain(t[1..])
  {
    var t := a + m + b;
    forall i | 1 <= i < |t| ensures t[i] !in "<&\n" && t[i] != '\\' {
      if i >= |a| + |m| {
        assert t[i] == b[i - |a| - |m|];
      } else if i >= |a| {
        assert t[i] == m[i - |a|];
      }
    }
  }
}
