/** What was written reads back: the block dialects (dsml/encode.go, dsml/decode.go). */
module RoundTrip {
  import opened Text
  import opened ToolText
  import opened Markup
  import opened Calls
  import opened Grammar
  import opened Phases
  import opened Transitions
  import opened Decode
  import opened Encode

  /** Tags that attributes can follow, and literals can be kept out of. */
  predicate Writable(syn: Syntax) {
    && (forall i :: 0 <= i < |syn.invokeStart| ==> syn.invokeStart[i] !in ">\"=")
    && (forall i :: 0 <= i < |syn.paramStart| ==> syn.paramStart[i] !in ">\"=")
    && LiteralSafe(syn.paramEnd)
  }

  // ----- finding an attribute -----

  /** The first `w` in `a + w + b`, when every quote of `a` is too early to end it. */
  lemma FirstAt(a: string, w: string, b: string)
    requires forall j :: 0 <= j < |a| ==> !(w <= (a + w + b)[j..])
    ensures Index(a + w + b, w) == |a|
  {
    var s := a + w + b;
    assert s[|a|..] == w + b;
    IndexIs(s, w, |a|);
  }

  /** Text up to a character it does not hold. */
  lemma UpTo(a: string, c: char, b: string)
    requires c !in a
    ensures Index(a + [c] + b, [c]) == |a|
  {
    var s := a + [c] + b;
    forall j | 0 <= j < |a| ensures !([c] <= s[j..]) {
      assert s[j..][0] == a[j];
    }
    FirstAt(a, [c], b);
  }

  const NAME := "name=\""

  /** The name attribute of an opening tag. */
  lemma NameReads(start: string, v: string, rest: string)
    requires '\"' !in start && '=' !in start
    ensures Attr(start + " name=\"" + AttrEscape(v) + "\"" + rest, "name") == Some(v)
  {
    var e := AttrEscape(v);
    var tag := start + " name=\"" + e + "\"" + rest;
    var a := start + " ";
    assert "name" + "=\"" == NAME;
    assert tag == a + NAME + (e + "\"" + rest);
    forall j | 0 <= j < |a| ensures !(NAME <= tag[j..]) {
      assert j + 5 < |tag| && tag[j..][5] == tag[j + 5];
      assert tag[j + 5] == (a + "name=")[j + 5];
    }
    FirstAt(a, NAME, e + "\"" + rest);
    var n := |a| + |NAME|;
    assert tag[n..] == e + "\"" + rest;
    assert var r := tag[n..]; var end := Index(r, "\""); end >= 0 && AttrUnescape(r[..end]) == v by {
      AttrClean(v);
      var e := AttrEscape(v);
      assert '\"' !in e;
      UpTo(e, '\"', rest);
      assert (e + "\"" + rest)[..|e|] == e;
      AttrRoundTrip(v);
    }
  }

  const STRING := "string=\""
  const STRING_BARE := "string="

  /** The string attribute of a parameter tag: found where it was written, unless the name ends in `string=`. */
  lemma StringReads(start: string, key: string, flag: string)
    requires '\"' !in start && '=' !in start && (flag == "true" || flag == "false")
    ensures Attr(start + " name=\"" + AttrEscape(key) + "\" string=\"" + flag + "\">", "string")
         == Some(if EndsWith(key, STRING_BARE) then " string=" else flag)
  {
    hide Attr, AttrEscape, Index, EndsWith;
    AttrTail(key, STRING_BARE);
    AttrClean(key);
    var e := AttrEscape(key);
    StringFound(start, e, flag);
    assert AttrUnescape(flag) == flag && AttrUnescape(" string=") == " string=" by {
      PlainUnescapes(flag);
      PlainUnescapes(" string=");
    }
  }

  lemma {:induction false} PlainUnescapes(s: string)
    requires '&' !in s
    ensures AttrUnescape(s) == s
  {
    if s != "" {
      assert s[0] in s;
      PlainUnescapes(s[1..]);
    }
  }

  lemma StringFound(start: string, e: string, flag: string)
    requires '\"' !in start && '=' !in start && '\"' !in e && '\"' !in flag
    ensures Attr(start + " name=\"" + e + "\" string=\"" + flag + "\">", "string")
         == Some(AttrUnescape(if EndsWith(e, STRING_BARE) then " string=" else flag))
  {
    hide AttrUnescape, Attr;
    var tag := start + " name=\"" + e + "\" string=\"" + flag + "\">";
    var open := start + " name=\"";
    if EndsWith(e, STRING_BARE) {
      var a := open + e[..|e| - 7];
      assert tag == a + STRING + (" string=" + "\"" + (flag + "\">"));
      NoEarlierString(start, e, tag, |a|);
      ValueAfter(a, " string=", flag + "\">");
    } else {
      var a := open + e + "\" ";
      assert tag == a + STRING + (flag + "\"" + ">");
      NoEarlierString(start, e, tag, |a|);
      ValueAfter(a, flag, ">");
    }
  }

  /** The attribute found first at `|a|`. */
  lemma ValueAfter(a: string, v: string, rest: string)
    requires '\"' !in v
    requires var tag := a + STRING + (v + "\"" + rest); forall j :: 0 <= j < |a| ==> !(STRING <= tag[j..])
    ensures Attr(a + STRING + (v + "\"" + rest), "string") == Some(AttrUnescape(v))
  {
    hide AttrUnescape;
    var b := v + "\"" + rest;
    assert "string" + "=\"" == STRING;
    FirstAt(a, STRING, b);
    assert (a + STRING + b)[|a| + 8..] == b;
    UpTo(v, '\"', rest);
    assert b[..|v|] == v;
  }

  /** `string="` ends in a quote: the one after the name, when the name ends so, or the next. */
  lemma NoEarlierString(start: string, e: string, tag: string, n: nat)
    requires '\"' !in start && '=' !in start && '\"' !in e
    requires n <= |tag| && n == (if EndsWith(e, STRING_BARE) then |start| + |e| else |start| + 7 + |e| + 2)
    requires start + " name=\"" + e + "\" string=\"" <= tag
    ensures forall j :: 0 <= j < n ==> !(STRING <= tag[j..])
  {
    var p := start + " name=\"" + e + "\" string=\"";
    var q := |start| + 6;
    var r := q + 1 + |e|;
    forall j | 0 <= j < n ensures !(STRING <= tag[j..]) {
      var k := j + 7;
      assert k < |p| && tag[j..][7] == tag[k] == p[k];
      assert p[k] == '\"' <==> k == q || k == r || k == r + 9 by {
        QuoteSpots(start, e, k);
      }
      if k == q {
        assert tag[j..][5] == tag[j + 5] == p[j + 5] == 'e';
      } else if k == r {
        EndsIfWritten(start, e, tag, j);
      }
    }
  }

  lemma QuoteSpots(start: string, e: string, k: nat)
    requires '\"' !in start && '\"' !in e
    ensures var p := start + " name=\"" + e + "\" string=\"";
            var q := |start| + 6; var r := q + 1 + |e|;
            k < |p| ==> (p[k] == '\"' <==> k == q || k == r || k == r + 9)
  {
    var p := start + " name=\"" + e + "\" string=\"";
    var q := |start| + 6;
    var r := q + 1 + |e|;
    if k < |start| {
      assert p[k] == start[k];
    } else if k <= q {
      assert p[k] == " name=\""[k - |start|];
    } else if k < r {
      assert p[k] == e[k - q - 1];
    } else if k < |p| {
      assert p[k] == "\" string=\""[k - r];
    }
  }

  lemma EndsIfWritten(start: string, e: string, tag: string, j: nat)
    requires start + " name=\"" + e + "\" string=\"" <= tag && j + 7 == |start| + 7 + |e| && '\"' !in e
    ensures STRING <= tag[j..] ==> EndsWith(e, STRING_BARE)
  {
    var p := start + " name=\"" + e + "\" string=\"";
    if |e| >= 7 {
      assert p[j..j + 7] == e[|e| - 7..];
      assert tag[j..][..7] == tag[j..j + 7] == p[j..j + 7];
    } else {
      assert tag[j..][6 - |e|] == p[|start| + 6] == '\"';
    }
  }

  // ----- headers -----

  /** The invoke tag reads back, whatever follows. */
  lemma InvokeTagReads(syn: Syntax, name: string, rest: string)
    requires Writable(syn) && name != ""
    ensures var r := InvokeTag(syn, name) + rest;
            && Index(r, ">") == |InvokeTag(syn, name)| - 1
            && InvokeHeader(r) == Some(Header(name, true, rest))
            && OpensTag(r, syn.invokeStart)
  {
    hide Attr, AttrEscape, WellFormed, IsOpener;
    var tag := InvokeTag(syn, name);
    var r := tag + rest;
    AttrClean(name);
    var a := syn.invokeStart + " name=\"" + AttrEscape(name) + "\"";
    assert tag == a + ">";
    assert r == a + ['>'] + rest;
    UpTo(a, '>', rest);
    assert r[..|tag|] == tag && r[|tag|..] == rest;
    assert tag == syn.invokeStart + " name=\"" + AttrEscape(name) + "\"" + ">";
    NameReads(syn.invokeStart, name, ">");
    TagOpens(syn.invokeStart, r);
  }

  lemma TagOpens(start: string, r: string)
    requires start + " " <= r
    ensures OpensTag(r, start)
  {
    assert r[|start|] == (start + " ")[|start|];
  }

  /** The parameter tag reads back; a literal whose name ends in `string=` reads as a string. */
  lemma ParamTagReads(syn: Syntax, key: string, isString: bool, rest: string)
    requires Writable(syn) && key != ""
    ensures var r := ParamTag(syn, key, isString) + rest;
            && ParamHeader(r) == Some(Header(key, isString || EndsWith(key, STRING_BARE), rest))
            && OpensTag(r, syn.paramStart)
  {
    hide Attr, AttrEscape, WellFormed, IsOpener, EndsWith, Index;
    var tag := ParamTag(syn, key, isString);
    var r := tag + rest;
    AttrClean(key);
    var flag := BoolText(isString);
    var a := syn.paramStart + " name=\"" + AttrEscape(key) + "\" string=\"" + flag + "\"";
    assert tag == a + ">";
    assert r == a + ['>'] + rest;
    UpTo(a, '>', rest);
    assert r[..|tag|] == tag && r[|tag|..] == rest;
    assert tag == syn.paramStart + " name=\"" + AttrEscape(key) + "\"" + (" string=\"" + flag + "\">");
    NameReads(syn.paramStart, key, " string=\"" + flag + "\">");
    StringReads(syn.paramStart, key, flag);
    TagOpens(syn.paramStart, r);
  }

  // ----- values, calls, blocks -----

  /** How a written pair reads back: strings as they were, null as the empty string, a literal with its
      close tags spelled in JSON; a literal under a name ending in `string=` reads as a string. */
  function ReadPair(syn: Syntax, a: Argument): Param {
    match a.value
    case Str(s) => Param(a.key, s, s, true)
    case Null => Param(a.key, "", "", true)
    case Literal(s) =>
      var raw := EscapeLiteral(s, syn.paramEnd);
      var decoded := Unescape(raw, syn.paramEnd);
      if EndsWith(a.key, STRING_BARE) then Param(a.key, decoded, decoded, true) else Param(a.key, raw, decoded, false)
  }

  function ReadPairs(syn: Syntax, pairs: seq<Argument>): (ps: seq<Param>)
    ensures |ps| == |pairs|
  {
    if pairs == [] then [] else [ReadPair(syn, pairs[0])] + ReadPairs(syn, pairs[1..])
  }

  function ReadRequest(syn: Syntax, c: Request): Call {
    Call(c.name, ReadPairs(syn, PairsOf(c.input)))
  }

  function ReadRequests(syn: Syntax, cs: seq<Request>): (r: seq<Call>)
    ensures |r| == |cs|
  {
    if cs == [] then [] else [ReadRequest(syn, cs[0])] + ReadRequests(syn, cs[1..])
  }

  /** A written value ends where its close tag was written, and reads back. */
  lemma ValueReads(syn: Syntax, a: Argument, rest: string)
    requires Writable(syn)
    ensures var v := ValueText(syn, a.value);
            && Index(v.0 + syn.paramEnd + rest, syn.paramEnd) == |v.0|
            && BlockParam(syn, a.key, v.0, v.1 || EndsWith(a.key, STRING_BARE)) == ReadPair(syn, a)
  {
    hide Escape, EscapeLiteral, Unescape, EndsWith, WellFormed, Index;
    CloseTags(syn);
    match a.value
    case Str(s) =>
      EscapedBodyStaysOpen(s, syn.paramEnd);
      RoundTrip(s, syn.paramEnd);
      FirstCloseEndsBody(Escape(s, syn.paramEnd), syn.paramEnd, rest);
    case Null =>
      EscapedBodyStaysOpen("", syn.paramEnd);
      RoundTrip("", syn.paramEnd);
      FirstCloseEndsBody(Escape("", syn.paramEnd), syn.paramEnd, rest);
    case Literal(s) =>
      LiteralStaysOpen(s, syn.paramEnd);
      FirstCloseEndsBody(EscapeLiteral(s, syn.paramEnd), syn.paramEnd, rest);
  }

  /** A line break in front of a tag is skipped. */
  lemma BreakSkipped(t: string)
    requires t != "" && t[0] == '<'
    ensures SkipSpace("\n" + t) == t && SkipSpace(t) == t
  {
    assert ("\n" + t)[1..] == t;
  }

  lemma ParamReads(b: Block, a: Argument, calls: seq<Call>, name: string, ps: seq<Param>, rest: string)
    requires Writable(b.syn) && a.key != ""
    ensures ScanBody(b, "\n" + ParamText(b.syn, a) + rest, calls, name, ps) ==
            ScanBody(b, rest, calls, name, ps + [ReadPair(b.syn, a)])
  {
    assert var v := ValueText(b.syn, a.value);
           var isString := v.1 || EndsWith(a.key, STRING_BARE);
           ScanValue(b, v.0 + b.syn.paramEnd + rest, calls, name, ps, a.key, isString) ==
               ScanBody(b, rest, calls, name, ps + [ReadPair(b.syn, a)]) by {
      hide ScanBody, ScanValue, ValueText, BlockParam, ReadPair, EndsWith, WellFormed, Index;
      var v := ValueText(b.syn, a.value);
      var tail := v.0 + b.syn.paramEnd + rest;
      ValueReads(b.syn, a, rest);
      assert tail[..|v.0|] == v.0 && tail[|v.0| + |b.syn.paramEnd|..] == rest;
      ValueSteps(b, tail, calls, name, ps, a.key, v.1 || EndsWith(a.key, STRING_BARE));
    }
    hide ScanBody, ScanParam, ScanValue, ValueText, ParamTag, ReadPair, EndsWith, WellFormed;
    var v := ValueText(b.syn, a.value);
    var tail := v.0 + b.syn.paramEnd + rest;
    var r := ParamTag(b.syn, a.key, v.1) + tail;
    assert "\n" + ParamText(b.syn, a) + rest == "\n" + r;
    ParamTagReads(b.syn, a.key, v.1, tail);
    assert ScanBody(b, "\n" + r, calls, name, ps) == ScanParam(b, r, calls, name, ps) by {
      hide SkipSpace, OpensTag;
      StartsOpen(b.syn, r);
      BreakSkipped(r);
      BodySkips(b, "\n" + r, calls, name, ps);
      ParamOpens(b, calls, name, ps, r);
    }
    HeaderEntered(b, r, calls, name, ps, Header(a.key, v.1 || EndsWith(a.key, STRING_BARE), tail));
  }

  lemma HeaderEntered(b: Block, r: string, calls: seq<Call>, name: string, ps: seq<Param>, h: Header)
    requires ParamHeader(r) == Some(h)
    ensures ScanParam(b, r, calls, name, ps) == ScanValue(b, h.rest, calls, name, ps, h.name, h.isString)
  {
    hide ParamHeader, ScanValue;
  }

  lemma StartsOpen(syn: Syntax, r: string)
    requires OpensTag(r, syn.paramStart)
    ensures r != "" && r[0] == '<' && !(syn.invokeEnd <= r)
  {
    ApartIsFinal(r, syn.paramStart, syn.invokeEnd, "");
    assert r + "" == r;
  }

  lemma {:induction false} ParamsRead(b: Block, pairs: seq<Argument>, calls: seq<Call>, name: string, ps: seq<Param>,
          rest: string)
    requires Writable(b.syn) && RenderablePairs(pairs)
    ensures var qs := ps + ReadPairs(b.syn, pairs);
            ScanBody(b, ParamsText(b.syn, pairs) + rest, calls, name, ps) ==
            if b.json.valid(Arguments(b.json, qs, b.live)) then ScanBlock(b, rest, calls + [Call(name, qs)])
                else Bad(rest)
    decreases |pairs|
  {
    hide ScanBody, ScanBlock, ParamText, ReadPair, Arguments, WellFormed;
    if pairs == [] {
      assert ps + ReadPairs(b.syn, []) == ps;
      assert ParamsText(b.syn, pairs) + rest == "\n" + (b.syn.invokeEnd + rest);
      BodyCloseReads(b, calls, name, ps, rest);
    } else {
      var tail := ParamsText(b.syn, pairs[1..]);
      assert ParamsText(b.syn, pairs) + rest == "\n" + ParamText(b.syn, pairs[0]) + (tail + rest);
      assert ValidAttribute(pairs[0].key);
      ParamReads(b, pairs[0], calls, name, ps, tail + rest);
      ParamsRead(b, pairs[1..], calls, name, ps + [ReadPair(b.syn, pairs[0])], rest);
      assert ps + [ReadPair(b.syn, pairs[0])] + ReadPairs(b.syn, pairs[1..]) == ps + ReadPairs(b.syn, pairs);
    }
  }

  lemma BodyCloseReads(b: Block, calls: seq<Call>, name: string, ps: seq<Param>, rest: string)
    ensures ScanBody(b, "\n" + (b.syn.invokeEnd + rest), calls, name, ps) ==
            if b.json.valid(Arguments(b.json, ps, b.live)) then ScanBlock(b, rest, calls + [Call(name, ps)])
                else Bad(rest)
  {
    hide ScanBody, ScanBlock, Arguments, SkipSpace;
    var r := b.syn.invokeEnd + rest;
    BreakSkipped(r);
    BodySkips(b, "\n" + r, calls, name, ps);
    assert r[|b.syn.invokeEnd|..] == rest;
    BodySteps(b, r, calls, name, ps);
  }

  /** The calls are named and their arguments, as the reader rebuilds them, are valid JSON. */
  predicate Readable(b: Block, cs: seq<Request>) {
    forall i :: 0 <= i < |cs| ==>
      Renderable(cs[i]) && b.json.valid(Arguments(b.json, ReadRequest(b.syn, cs[i]).params, b.live))
  }

  /** What the JSON library guarantees, for a notion of a valid fragment: quoting makes one, spelling the close
      tag with an escape keeps one, and an object of them is valid. */
  ghost predicate JsonWorks(json: Json, fragment: string -> bool, end: string)
    requires end != ""
  {
    && (forall s :: fragment(json.quote(s)))
    && (forall s :: fragment(s) ==> fragment(EscapeLiteral(s, end)))
    && (forall a: Args :: AllFragments(fragment, a) ==> json.valid(BuildJson(json, a)))
  }

  predicate AllFragments(fragment: string -> bool, a: Args) {
    forall i :: 0 <= i < |a| ==> fragment(a[i].1)
  }

  /** The literals written are JSON. */
  predicate LiteralsAre(fragment: string -> bool, pairs: seq<Argument>) {
    forall i :: 0 <= i < |pairs| && pairs[i].value.Literal? ==> fragment(pairs[i].value.text)
  }

  /** With such a library, calls with valid names whose literals are JSON are readable. */
  lemma ReadableWhenJson(b: Block, cs: seq<Request>, fragment: string -> bool)
    requires b.syn.paramEnd != "" && JsonWorks(b.json, fragment, b.syn.paramEnd) && !b.live
    requires forall i :: 0 <= i < |cs| ==> Renderable(cs[i]) && LiteralsAre(fragment, PairsOf(cs[i].input))
    ensures Readable(b, cs)
  {
    hide Renderable, ReadPairs, WellFormed, BuildJson, EscapeLiteral;
    forall i | 0 <= i < |cs| ensures b.json.valid(Arguments(b.json, ReadRequest(b.syn, cs[i]).params, false)) {
      var pairs := PairsOf(cs[i].input);
      PairsAreFragments(b, pairs, fragment);
      CollectIsFragments(b.json, ReadPairs(b.syn, pairs), fragment);
    }
  }

  lemma {:induction false} PairsAreFragments(b: Block, pairs: seq<Argument>, fragment: string -> bool)
    requires b.syn.paramEnd != "" && JsonWorks(b.json, fragment, b.syn.paramEnd) && LiteralsAre(fragment, pairs)
    ensures forall i :: 0 <= i < |pairs| ==> fragment(Fragment(b.json, ReadPairs(b.syn, pairs)[i], false))
  {
    hide WellFormed, BuildJson, EscapeLiteral, Unescape;
    if pairs != [] {
      assert forall i :: 0 <= i < |pairs[1..]| ==> pairs[1..][i] == pairs[i + 1];
      PairsAreFragments(b, pairs[1..], fragment);
    }
  }

  lemma {:induction false} CollectIsFragments(json: Json, ps: seq<Param>, fragment: string -> bool)
    requires forall i :: 0 <= i < |ps| ==> fragment(Fragment(json, ps[i], false))
    ensures AllFragments(fragment, Collect(json, ps, false))
  {
    hide Fragment;
    if ps != [] {
      var init, p := ps[..|ps| - 1], ps[|ps| - 1];
      assert forall i :: 0 <= i < |init| ==> init[i] == ps[i];
      CollectIsFragments(json, init, fragment);
      SetIsFragments(Collect(json, init, false), p.key, Fragment(json, p, false), fragment);
    }
  }

  lemma {:induction false} SetIsFragments(a: Args, key: string, value: string, fragment: string -> bool)
    requires AllFragments(fragment, a) && fragment(value)
    ensures AllFragments(fragment, SetArg(a, key, value))
  {
    if a != [] && a[0].0 != key {
      assert forall i :: 0 <= i < |a[1..]| ==> a[1..][i] == a[i + 1];
      SetIsFragments(a[1..], key, value, fragment);
    }
  }

  lemma InvokeReads(b: Block, c: Request, calls: seq<Call>, rest: string)
    requires Writable(b.syn) && Readable(b, [c])
    ensures ScanBlock(b, "\n" + InvokeText(b.syn, c) + rest, calls) ==
            ScanBlock(b, rest, calls + [ReadRequest(b.syn, c)])
  {
    hide ScanBody, ScanBlock, ParamsText, InvokeTag, Arguments, WellFormed, InvokeHeader, SkipSpace, ReadPairs, BlockAt;
    var tail := ParamsText(b.syn, PairsOf(c.input)) + rest;
    var r := InvokeTag(b.syn, c.name) + tail;
    assert Renderable([c][0]);
    assert "\n" + InvokeText(b.syn, c) + rest == "\n" + r;
    InvokeTagReads(b.syn, c.name, tail);
    StartsInvoke(b.syn, r);
    BreakSkipped(r);
    BlockSkips(b, "\n" + r, calls);
    BlockSteps(b, r, calls);
    assert ScanInvoke(b, r, calls) == ScanBody(b, tail, calls, c.name, []);
    ParamsRead(b, PairsOf(c.input), calls, c.name, [], rest);
    assert [] + ReadPairs(b.syn, PairsOf(c.input)) == ReadPairs(b.syn, PairsOf(c.input));
  }

  lemma StartsInvoke(syn: Syntax, r: string)
    requires OpensTag(r, syn.invokeStart)
    ensures r != "" && r[0] == '<' && !(syn.toolEnd <= r)
  {
    ApartIsFinal(r, syn.invokeStart, syn.toolEnd, "");
    assert r + "" == r;
  }

  /** A written block reads back, call by call, whatever follows it. */
  lemma {:induction false} InvokesRead(b: Block, cs: seq<Request>, calls: seq<Call>, rest: string)
    requires Writable(b.syn) && Readable(b, cs) && !b.implicit
    ensures ScanBlock(b, InvokesText(b.syn, cs) + rest, calls) == Closed(calls + ReadRequests(b.syn, cs), rest)
  {
    hide ScanBlock, InvokeText, ReadRequest, WellFormed, Arguments, SkipSpace;
    if cs == [] {
      assert calls + ReadRequests(b.syn, []) == calls;
      var r := b.syn.toolEnd + rest;
      assert InvokesText(b.syn, cs) + rest == "\n" + r;
      CloseTags(b.syn);
      BreakSkipped(r);
      BlockSkips(b, "\n" + r, calls);
      assert r[|b.syn.toolEnd|..] == rest;
      BlockSteps(b, r, calls);
    } else {
      var tail := InvokesText(b.syn, cs[1..]);
      assert InvokesText(b.syn, cs) + rest == "\n" + InvokeText(b.syn, cs[0]) + (tail + rest);
      assert Readable(b, [cs[0]]) && Readable(b, cs[1..]);
      InvokeReads(b, cs[0], calls, tail + rest);
      InvokesRead(b, cs[1..], calls + [ReadRequest(b.syn, cs[0])], rest);
      assert calls + [ReadRequest(b.syn, cs[0])] + ReadRequests(b.syn, cs[1..]) == calls + ReadRequests(b.syn, cs);
    }
  }
}
