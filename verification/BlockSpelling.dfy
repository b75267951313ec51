/** Every spelling of a tool-call block (dsml/decode.go:264-390): tags with any attributes in any order, white space
    wherever it may stand, with the wrapper or without. A block is the calls it spells, for both readers. */
module BlockSpelling {
  import opened Text
  import opened ToolText
  import opened Markup
  import opened Calls
  import opened Grammar
  import opened Phases
  import opened Transitions
  import opened Decode
  import opened Completion
  import opened Encode
  import opened RoundTrip
  import opened MessageRoundTrip
  import opened StreamVsBatch

  // ----- tags -----

  /** White space, a name, and the text between the quotes. */
  datatype Attribute = Attribute(gap: string, name: string, value: string)

  function AttributeText(a: Attribute): string {
    a.gap + a.name + "=\"" + a.value + "\""
  }

  function AttributesText(attrs: seq<Attribute>): string {
    if attrs == [] then "" else AttributeText(attrs[0]) + AttributesText(attrs[1..])
  }

  predicate IsGap(s: string) {
    forall i :: 0 <= i < |s| ==> s[i] == ' ' || s[i] == '\t' || s[i] == '\n' || s[i] == '\r'
  }

  predicate Lacks(s: string, bad: string) {
    forall i :: 0 <= i < |s| ==> s[i] !in bad
  }

  predicate IsAttribute(a: Attribute) {
    IsGap(a.gap) && a.gap != "" && Lacks(a.name, "\"=>") && Lacks(a.value, "\">")
  }

  /** No other attribute can be mistaken for the one named `key`: none has a longer name that ends so, and no value ends
      in the name and an equals sign. */
  predicate Clear(attrs: seq<Attribute>, key: string) {
    forall i :: 0 <= i < |attrs| ==>
      (EndsWith(attrs[i].name, key) ==> attrs[i].name == key) && !EndsWith(attrs[i].value, key + "=")
  }

  predicate IsListed(attrs: seq<Attribute>, tail: string) {
    && IsGap(tail) && (forall i :: 0 <= i < |attrs| ==> IsAttribute(attrs[i]))
    && Clear(attrs, "name") && Clear(attrs, "string")
  }

  /** The unescaped value of the first attribute of that name. */
  function Value(attrs: seq<Attribute>, key: string): Option<string> {
    if attrs == [] then None
    else if attrs[0].name == key then Some(AttrUnescape(attrs[0].value))
    else Value(attrs[1..], key)
  }

  /** A tag behind its start: a list of attributes, or any text without `>`. */
  datatype Tag = Listed(attrs: seq<Attribute>, tail: string) | Loose(head: string)

  function HeadText(t: Tag): string {
    match t
    case Listed(attrs, tail) => AttributesText(attrs) + tail
    case Loose(head) => head
  }

  function TagText(start: string, t: Tag): string {
    start + HeadText(t) + ">"
  }

  predicate IsTag(t: Tag) {
    match t
    case Listed(attrs, tail) => IsListed(attrs, tail)
    case Loose(head) => Lacks(head, ">") && (head != "" ==> IsAsciiSpace(head[0]))
  }

  /** The value of an attribute; in loose text, what the search for the name and a quote finds. */
  function Reading(start: string, t: Tag, key: string): Option<string> {
    match t
    case Listed(attrs, _) => Value(attrs, key)
    case Loose(_) => Attr(TagText(start, t), key)
  }

  function NameOf(start: string, t: Tag): string {
    match Reading(start, t, "name")
    case Some(name) => name
    case None => ""
  }

  // ----- finding an attribute -----

  /** Text in front that holds no occurrence, and cannot begin one. */
  lemma SkipsFront(q: string, rest: string, key: string)
    requires !Contains(q, key + "=\"") && rest != "" && rest[0] !in key + "=\""
    ensures Attr(q + rest, key) == Attr(rest, key)
  {
    hide Index, AttrUnescape;
    var pat, s := key + "=\"", q + rest;
    IndexIsFirst(q, pat);
    IndexIsFirst(rest, pat);
    forall j | 0 <= j < |q| ensures !(pat <= s[j..]) {
      if j + |pat| <= |q| {
        assert q[j..][..|pat|] == s[j..][..|pat|];
      } else {
        assert s[j..][|q| - j] == rest[0] && pat[|q| - j] in pat;
      }
    }
    var pos := Index(rest, pat);
    if pos >= 0 {
      forall j | 0 <= j < |q| + pos ensures !(pat <= s[j..]) {
        assert j >= |q| ==> s[j..] == rest[j - |q|..];
      }
      assert s[|q| + pos..] == rest[pos..];
      IndexIs(s, pat, |q| + pos);
      assert s[|q| + pos + |pat|..] == rest[pos + |pat|..];
    } else {
      forall j | 0 <= j <= |s| ensures !(pat <= s[j..]) {
        assert j >= |q| ==> s[j..] == rest[j - |q|..];
      }
      IndexIsFirst(s, pat);
    }
  }

  /** An attribute holds `key="` only as its own name or at the end of a name or a value. */
  lemma OtherAttribute(a: Attribute, key: string)
    requires IsAttribute(a) && (key == "name" || key == "string") && a.name != key && Clear([a], key)
    ensures !Contains(AttributeText(a), key + "=\"")
  {
    hide Index, EndsWith;
    var pat, s := key + "=\"", AttributeText(a);
    assert [a][0] == a;
    IndexIsFirst(s, pat);
    var n := |a.gap| + |a.name|;
    forall j | 0 <= j <= |s| ensures !(pat <= s[j..]) {
      var k := j + |pat| - 1;
      if k < |s| {
        QuotesAt(a, k);
        assert s[j..][|pat| - 1] == s[k] && pat[|pat| - 1] == '\"';
        if k == n + 1 {
          NameAt(a, key, j);
        } else if k == |s| - 1 {
          ValueAt(a, key, j);
        }
      }
    }
  }

  lemma QuotesAt(a: Attribute, k: nat)
    requires IsAttribute(a) && k < |AttributeText(a)|
    ensures AttributeText(a)[k] == '\"' <==> k == |a.gap| + |a.name| + 1 || k == |AttributeText(a)| - 1
  {
    var s, n := AttributeText(a), |a.gap| + |a.name|;
    if k < |a.gap| {
      assert s[k] == a.gap[k];
    } else if k < n {
      assert s[k] == a.name[k - |a.gap|];
    } else if k == n {
      assert s[k] == '=';
    } else if n + 1 < k < |s| - 1 {
      assert s[k] == a.value[k - n - 2];
    }
  }

  lemma NameAt(a: Attribute, key: string, j: nat)
    requires IsAttribute(a) && (key == "name" || key == "string") && j + |key| == |a.gap| + |a.name|
    ensures j <= |AttributeText(a)| && (key + "=\"" <= AttributeText(a)[j..] ==> EndsWith(a.name, key))
  {
    var s, n, pat := AttributeText(a), |a.gap| + |a.name|, key + "=\"";
    assert s == (a.gap + a.name) + ("=\"" + a.value + "\"");
    FrontSlice(a.gap + a.name, "=\"" + a.value + "\"", j);
    if |key| <= |a.name| {
      assert (a.gap + a.name)[j..] == a.name[|a.name| - |key|..];
    } else {
      var g := |a.gap| - 1;
      assert IsGap([a.gap[g]]);
      GapIsNoKey(a.gap[g], key);
      assert s[j..][g - j] == s[g] == a.gap[g] && pat[g - j] == key[g - j];
    }
  }

  /** What begins at `j` with a text as long as the rest of `u` is the rest of `u`. */
  lemma FrontSlice(u: string, v: string, j: nat)
    requires j <= |u|
    ensures forall key: string, more: string :: |key| == |u| - j && key + more <= (u + v)[j..] ==> u[j..] == key
  {
    forall key: string, more: string | |key| == |u| - j && key + more <= (u + v)[j..] ensures u[j..] == key {
      assert (u + v)[j..][..|key|] == u[j..] && (key + more)[..|key|] == key;
    }
  }

  lemma GapIsNoKey(c: char, key: string)
    requires IsGap([c]) && (key == "name" || key == "string")
    ensures c !in key
  {
    assert [c][0] == c;
  }

  lemma ValueAt(a: Attribute, key: string, j: nat)
    requires IsAttribute(a) && (key == "name" || key == "string") && j + |key| + 2 == |AttributeText(a)|
    ensures key + "=\"" <= AttributeText(a)[j..] && |a.gap| + |a.name| + 2 <= |AttributeText(a)| ==>
              EndsWith(a.value, key + "=")
  {
    var s, n, w, pat := AttributeText(a), |a.gap| + |a.name|, key + "=", key + "=\"";
    assert pat <= s[j..] ==> s[j..][..|w|] == w;
    assert s[j..][..|w|] == s[j..|s| - 1];
    if |w| <= |a.value| {
      assert s[j..|s| - 1] == a.value[|a.value| - |w|..];
    } else {
      assert n + 1 >= j ==> s[j..][n + 1 - j] == s[n + 1] == '\"' && w[n + 1 - j] != '\"';
    }
  }

  /** Without a quote there is no attribute. */
  lemma NoQuote(s: string, key: string)
    requires Lacks(s, "\"")
    ensures !Contains(s, key + "=\"")
  {
    hide Index;
    var pat := key + "=\"";
    IndexIsFirst(s, pat);
    forall j | 0 <= j <= |s| ensures !(pat <= s[j..]) {
      var k := j + |pat| - 1;
      assert pat[|pat| - 1] == '\"';
      if k < |s| {
        assert s[j..][|pat| - 1] == s[k];
      }
    }
  }

  /** The attribute search finds the first attribute of the name, whatever the others are. */
  lemma {:induction false} AttributeFound(attrs: seq<Attribute>, tail: string, key: string)
    requires IsListed(attrs, tail) && (key == "name" || key == "string")
    ensures Attr(AttributesText(attrs) + tail + ">", key) == Value(attrs, key)
  {
    hide Attr, AttrUnescape, Contains, EndsWith;
    if attrs == [] {
      assert "" + tail + ">" == tail + ">";
      NoQuote(tail + ">", key);
      NothingFound(tail + ">", key);
    } else {
      var a, rest := attrs[0], AttributesText(attrs[1..]) + tail + ">";
      assert AttributesText(attrs) + tail + ">" == AttributeText(a) + rest;
      assert IsAttribute(a);
      if a.name == key {
        OwnAttribute(a, rest);
      } else {
        assert Clear([a], key) by {
          assert [a][0] == a;
        }
        OtherAttribute(a, key);
        RestBegins(attrs[1..], tail, key);
        SkipsFront(AttributeText(a), rest, key);
        RestIsListed(attrs, tail);
        AttributeFound(attrs[1..], tail, key);
      }
    }
  }

  lemma NothingFound(s: string, key: string)
    requires !Contains(s, key + "=\"")
    ensures Attr(s, key) == None
  {
    hide Index;
  }

  lemma RestIsListed(attrs: seq<Attribute>, tail: string)
    requires attrs != [] && IsListed(attrs, tail)
    ensures IsListed(attrs[1..], tail)
  {
    hide EndsWith, IsAttribute;
    assert forall i :: 0 <= i < |attrs[1..]| ==> attrs[1..][i] == attrs[i + 1];
  }

  lemma RestBegins(attrs: seq<Attribute>, tail: string, key: string)
    requires IsGap(tail) && (attrs != [] ==> IsAttribute(attrs[0])) && (key == "name" || key == "string")
    ensures var rest := AttributesText(attrs) + tail + ">";
            rest != "" && rest[0] !in key + "=\"" && (rest[0] == '>' || IsAsciiSpace(rest[0]))
  {
    var rest := AttributesText(attrs) + tail + ">";
    if attrs != [] {
      assert rest[0] == attrs[0].gap[0];
    } else if tail != "" {
      assert rest[0] == tail[0];
    }
  }

  /** An attribute is found where its name stands. */
  lemma OwnAttribute(a: Attribute, rest: string)
    requires IsAttribute(a)
    ensures Attr(AttributeText(a) + rest, a.name) == Some(AttrUnescape(a.value))
  {
    hide AttrUnescape, Index;
    var pat, s := a.name + "=\"", AttributeText(a) + rest;
    assert s == a.gap + pat + (a.value + "\"" + rest);
    forall j | 0 <= j < |a.gap| ensures !(pat <= s[j..]) {
      // the quote that ends the pattern is the first one of the text
      assert s[j..][|pat| - 1] == s[j + |pat| - 1];
      NoQuoteBefore(a, rest, j + |pat| - 1);
    }
    FirstAt(a.gap, pat, a.value + "\"" + rest);
    var tail := s[|a.gap| + |pat|..];
    assert tail == a.value + "\"" + rest;
    assert '\"' !in a.value;
    UpTo(a.value, '\"', rest);
    assert tail == a.value + ['\"'] + rest && tail[..|a.value|] == a.value;
  }

  lemma NoQuoteBefore(a: Attribute, rest: string, k: nat)
    requires IsAttribute(a) && k < |a.gap| + |a.name| + 1
    ensures (AttributeText(a) + rest)[k] != '\"'
  {
    QuotesAt(a, k);
    assert (AttributeText(a) + rest)[k] == AttributeText(a)[k];
  }

  lemma {:induction false} NoAngle(attrs: seq<Attribute>, tail: string)
    requires IsListed(attrs, tail)
    ensures Lacks(AttributesText(attrs), ">")
  {
    hide EndsWith;
    if attrs != [] {
      RestIsListed(attrs, tail);
      NoAngle(attrs[1..], tail);
      assert IsAttribute(attrs[0]);
      AttributeHasNoAngle(attrs[0]);
    }
  }

  lemma AttributeHasNoAngle(a: Attribute)
    requires IsAttribute(a)
    ensures Lacks(AttributeText(a), ">")
  {
    var s, n := AttributeText(a), |a.gap| + |a.name|;
    forall i | 0 <= i < |s| ensures s[i] != '>' {
      if i < |a.gap| {
        assert s[i] == a.gap[i];
      } else if i < n {
        assert s[i] == a.name[i - |a.gap|];
      } else if n + 1 < i < |s| - 1 {
        assert s[i] == a.value[i - n - 2];
      }
    }
  }

  lemma TagHead(t: Tag)
    requires IsTag(t)
    ensures Lacks(HeadText(t), ">") && (HeadText(t) != "" ==> IsAsciiSpace(HeadText(t)[0]))
  {
    hide IsListed;
    match t
    case Listed(attrs, tail) =>
      NoAngle(attrs, tail);
      assert IsGap(tail) && (attrs != [] ==> IsAttribute(attrs[0])) by {
        ListParts(attrs, tail);
      }
      RestBegins(attrs, tail, "name");
      assert HeadText(t) != "" ==> (AttributesText(attrs) + tail + ">")[0] == HeadText(t)[0];
    case Loose(_) =>
  }

  lemma ListParts(attrs: seq<Attribute>, tail: string)
    requires IsListed(attrs, tail)
    ensures IsGap(tail) && (attrs != [] ==> IsAttribute(attrs[0]))
  {}

  /** A tag ends at its only `>`. */
  lemma TagEnds(start: string, t: Tag, rest: string)
    requires IsTag(t) && Lacks(start, ">")
    ensures Index(TagText(start, t) + rest, ">") == |TagText(start, t)| - 1
  {
    hide Index, IsTag;
    var front := start + HeadText(t);
    TagHead(t);
    assert TagText(start, t) + rest == front + ['>'] + rest;
    assert '>' !in front;
    UpTo(front, '>', rest);
  }

  /** Behind its start, the whole tag gives its attributes. */
  lemma TagReads(start: string, t: Tag, key: string)
    requires IsTag(t) && Lacks(start, "\"") && (key == "name" || key == "string")
    ensures Attr(TagText(start, t), key) == Reading(start, t, key)
  {
    hide Attr, EndsWith, IsAttribute;
    match t
    case Listed(attrs, tail) =>
      NoQuote(start, key);
      RestBegins(attrs, tail, key);
      var rest := AttributesText(attrs) + tail + ">";
      assert TagText(start, t) == start + rest;
      SkipsFront(start, rest, key);
      AttributeFound(attrs, tail, key);
    case Loose(_) =>
  }

  lemma TagOpensAt(start: string, t: Tag, rest: string)
    requires IsTag(t)
    ensures OpensTag(TagText(start, t) + rest, start)
  {
    hide IsTag;
    TagHead(t);
    assert TagText(start, t) + rest == start + (HeadText(t) + ">" + rest);
    assert (start + (HeadText(t) + ">" + rest))[|start|] == (HeadText(t) + ">" + rest)[0];
  }

  // ----- parameters, calls and blocks -----

  /** White space in front, the tag and the value as it is written. */
  datatype SpelledParam = SpelledParam(gap: string, tag: Tag, raw: string)

  /** White space in front, the tag, the parameters and the white space in front of the close tag. */
  datatype SpelledCall = SpelledCall(gap: string, tag: Tag, params: seq<SpelledParam>, end: string)

  /** The calls, and the white space in front of the wrapper's close tag; without a wrapper there is neither. */
  datatype SpelledBlock = SpelledBlock(wrapped: bool, calls: seq<SpelledCall>, end: string)

  function ParamSpelled(syn: Syntax, p: SpelledParam): string {
    p.gap + TagText(syn.paramStart, p.tag) + p.raw + syn.paramEnd
  }

  function ParamsSpelled(syn: Syntax, ps: seq<SpelledParam>): string {
    if ps == [] then "" else ParamSpelled(syn, ps[0]) + ParamsSpelled(syn, ps[1..])
  }

  function CallSpelled(syn: Syntax, c: SpelledCall): string {
    c.gap + TagText(syn.invokeStart, c.tag) + ParamsSpelled(syn, c.params) + c.end + syn.invokeEnd
  }

  function CallsSpelled(syn: Syntax, cs: seq<SpelledCall>): string {
    if cs == [] then "" else CallSpelled(syn, cs[0]) + CallsSpelled(syn, cs[1..])
  }

  function BlockSpelled(syn: Syntax, s: SpelledBlock): string {
    if s.wrapped then syn.toolStart + CallsSpelled(syn, s.calls) + s.end + syn.toolEnd else CallsSpelled(syn, s.calls)
  }

  predicate IsNamed(start: string, t: Tag) {
    IsTag(t) && NameOf(start, t) != ""
  }

  predicate IsParam(syn: Syntax, p: SpelledParam) {
    IsGap(p.gap) && IsNamed(syn.paramStart, p.tag) && !Contains(p.raw, syn.paramEnd)
  }

  predicate IsCall(syn: Syntax, c: SpelledCall) {
    && IsGap(c.gap) && IsNamed(syn.invokeStart, c.tag) && IsGap(c.end)
    && forall i :: 0 <= i < |c.params| ==> IsParam(syn, c.params[i])
  }

  predicate AreCalls(syn: Syntax, cs: seq<SpelledCall>) {
    forall i :: 0 <= i < |cs| ==> IsCall(syn, cs[i])
  }

  predicate IsBlock(syn: Syntax, s: SpelledBlock) {
    AreCalls(syn, s.calls) && IsGap(s.end) && (!s.wrapped ==> s.calls != [] && s.calls[0].gap == "")
  }

  /** What a parameter spells: a string unless its tag says `string="false"`, with escaped close tags restored; else a
      literal, of which only the stream restores them. */
  function ParamOf(syn: Syntax, p: SpelledParam): Param {
    var key, text := NameOf(syn.paramStart, p.tag), Unescape(p.raw, syn.paramEnd);
    if Reading(syn.paramStart, p.tag, "string") == Some("false") then Param(key, p.raw, text, false)
    else Param(key, text, text, true)
  }

  function ParamsOf(syn: Syntax, ps: seq<SpelledParam>): (r: seq<Param>)
    ensures |r| == |ps|
  {
    if ps == [] then [] else [ParamOf(syn, ps[0])] + ParamsOf(syn, ps[1..])
  }

  function CallOf(syn: Syntax, c: SpelledCall): Call {
    Call(NameOf(syn.invokeStart, c.tag), ParamsOf(syn, c.params))
  }

  function CallsOf(syn: Syntax, cs: seq<SpelledCall>): (r: seq<Call>)
    ensures |r| == |cs|
  {
    if cs == [] then [] else [CallOf(syn, cs[0])] + CallsOf(syn, cs[1..])
  }

  /** Tags that attributes can follow. */
  predicate Quotable(syn: Syntax) {
    Lacks(syn.invokeStart, "\">") && Lacks(syn.paramStart, "\">")
  }

  lemma {:induction false} GapSkipped(gap: string, r: string)
    requires IsGap(gap) && r != "" && r[0] == '<'
    ensures SkipSpace(gap + r) == r
  {
    if gap == "" {
      assert gap + r == r;
    } else {
      assert (gap + r)[1..] == gap[1..] + r;
      GapSkipped(gap[1..], r);
    }
  }

  lemma HeaderReads(syn: Syntax, t: Tag, rest: string)
    requires Quotable(syn)
    ensures IsNamed(syn.invokeStart, t) ==>
              InvokeHeader(TagText(syn.invokeStart, t) + rest) == Some(Header(NameOf(syn.invokeStart, t), true, rest))
    ensures IsNamed(syn.paramStart, t) ==>
              ParamHeader(TagText(syn.paramStart, t) + rest) ==
              Some(Header(NameOf(syn.paramStart, t), Reading(syn.paramStart, t, "string") != Some("false"), rest))
  {
    hide Attr, Index, WellFormed, IsTag, Reading, TagText;
    if IsTag(t) {
      TagParts(syn.invokeStart, t, rest);
      TagParts(syn.paramStart, t, rest);
    }
  }

  lemma TagParts(start: string, t: Tag, rest: string)
    requires IsTag(t) && Lacks(start, "\">")
    ensures var s := TagText(start, t);
            && s != "" && Index(s + rest, ">") == |s| - 1 && (s + rest)[..|s|] == s && (s + rest)[|s|..] == rest
            && Attr(s, "name") == Reading(start, t, "name") && Attr(s, "string") == Reading(start, t, "string")
  {
    hide Attr, Index, IsTag, Reading;
    TagEnds(start, t, rest);
    TagReads(start, t, "name");
    TagReads(start, t, "string");
  }

  /** One spelled parameter is read, whatever follows. */
  lemma ParamScans(b: Block, p: SpelledParam, calls: seq<Call>, name: string, ps: seq<Param>, rest: string)
    requires Quotable(b.syn) && IsParam(b.syn, p)
    ensures ScanBody(b, ParamSpelled(b.syn, p) + rest, calls, name, ps) ==
            ScanBody(b, rest, calls, name, ps + [ParamOf(b.syn, p)])
  {
    hide ScanBody, ScanParam, ScanValue, WellFormed, IsTag, Reading, Index, Unescape, OpensTag, TagText, ParamHeader;
    var tail := p.raw + b.syn.paramEnd + rest;
    var r := TagText(b.syn.paramStart, p.tag) + tail;
    assert ParamSpelled(b.syn, p) + rest == p.gap + r;
    HeaderReads(b.syn, p.tag, tail);
    TagOpensAt(b.syn.paramStart, p.tag, tail);
    StartsOpen(b.syn, r);
    GapSkipped(p.gap, r);
    BodySkips(b, p.gap + r, calls, name, ps);
    ParamOpens(b, calls, name, ps, r);
    var h := Header(NameOf(b.syn.paramStart, p.tag), Reading(b.syn.paramStart, p.tag, "string") != Some("false"), tail);
    HeaderEntered(b, r, calls, name, ps, h);
    CloseTags(b.syn);
    FirstCloseEndsBody(p.raw, b.syn.paramEnd, rest);
    assert tail[..|p.raw|] == p.raw && tail[|p.raw| + |b.syn.paramEnd|..] == rest;
    ValueSteps(b, tail, calls, name, ps, h.name, h.isString);
  }

  lemma {:induction false} ParamsScan(b: Block, qs: seq<SpelledParam>, end: string, calls: seq<Call>, name: string,
          ps: seq<Param>, rest: string)
    requires Quotable(b.syn) && IsGap(end) && forall i :: 0 <= i < |qs| ==> IsParam(b.syn, qs[i])
    ensures var all := ps + ParamsOf(b.syn, qs);
            ScanBody(b, ParamsSpelled(b.syn, qs) + end + b.syn.invokeEnd + rest, calls, name, ps) ==
            if b.json.valid(Arguments(b.json, all, b.live)) then ScanBlock(b, rest, calls + [Call(name, all)])
                else Bad(rest)
    decreases |qs|
  {
    hide ScanBody, ScanBlock, WellFormed, IsParam, ParamOf, ParamSpelled, Arguments, SkipSpace;
    if qs == [] {
      assert ps + ParamsOf(b.syn, []) == ps;
      var r := b.syn.invokeEnd + rest;
      assert "" + end + b.syn.invokeEnd + rest == end + r;
      CloseTags(b.syn);
      GapSkipped(end, r);
      GapSkipped("", r);
      assert "" + r == r;
      BodySkips(b, end + r, calls, name, ps);
      assert r[|b.syn.invokeEnd|..] == rest;
      BodySteps(b, r, calls, name, ps);
    } else {
      var tail := ParamsSpelled(b.syn, qs[1..]) + end + b.syn.invokeEnd + rest;
      assert ParamsSpelled(b.syn, qs) + end + b.syn.invokeEnd + rest == ParamSpelled(b.syn, qs[0]) + tail;
      assert forall i :: 0 <= i < |qs[1..]| ==> qs[1..][i] == qs[i + 1];
      ParamScans(b, qs[0], calls, name, ps, tail);
      ParamsScan(b, qs[1..], end, calls, name, ps + [ParamOf(b.syn, qs[0])], rest);
      assert ps + [ParamOf(b.syn, qs[0])] + ParamsOf(b.syn, qs[1..]) == ps + ParamsOf(b.syn, qs);
    }
  }

  lemma InvokeScans(b: Block, gap: string, r: string, calls: seq<Call>, h: Header)
    requires IsGap(gap) && OpensTag(r, b.syn.invokeStart) && InvokeHeader(r) == Some(h)
    ensures ScanBlock(b, gap + r, calls) == ScanBody(b, h.rest, calls, h.name, [])
  {
    hide ScanBody, ScanBlock, WellFormed, OpensTag, InvokeHeader, SkipSpace;
    StartsInvoke(b.syn, r);
    GapSkipped(gap, r);
    GapSkipped("", r);
    assert "" + r == r;
    BlockSkips(b, gap + r, calls);
    BlockSteps(b, r, calls);
  }

  /** One spelled call is read when its arguments are JSON. */
  lemma CallScans(b: Block, c: SpelledCall, calls: seq<Call>, rest: string)
    requires Quotable(b.syn) && IsCall(b.syn, c)
    ensures ScanBlock(b, CallSpelled(b.syn, c) + rest, calls) ==
            if b.json.valid(Arguments(b.json, CallOf(b.syn, c).params, b.live))
            then ScanBlock(b, rest, calls + [CallOf(b.syn, c)]) else Bad(rest)
  {
    hide ScanBody, ScanBlock, WellFormed, IsTag, IsParam, Reading, OpensTag, TagText, InvokeHeader, ParamsSpelled,
         Arguments, ParamsOf, SkipSpace, NameOf, ParamHeader, BlockAt;
    var tail := ParamsSpelled(b.syn, c.params) + c.end + b.syn.invokeEnd + rest;
    var r := TagText(b.syn.invokeStart, c.tag) + tail;
    assert CallSpelled(b.syn, c) + rest == c.gap + r;
    HeaderReads(b.syn, c.tag, tail);
    TagOpensAt(b.syn.invokeStart, c.tag, tail);
    var name := NameOf(b.syn.invokeStart, c.tag);
    InvokeScans(b, c.gap, r, calls, Header(name, true, tail));
    ParamsScan(b, c.params, c.end, calls, name, [], rest);
    assert [] + ParamsOf(b.syn, c.params) == ParamsOf(b.syn, c.params);
  }

  /** The scan of a spelled block: its calls, when the arguments of each are JSON. */
  lemma {:induction false} CallsScan(b: Block, cs: seq<SpelledCall>, calls: seq<Call>, rest: string)
    requires Quotable(b.syn) && AreCalls(b.syn, cs)
    ensures if AllValid(b.json, CallsOf(b.syn, cs), 0, b.live)
            then ScanBlock(b, CallsSpelled(b.syn, cs) + rest, calls) == ScanBlock(b, rest, calls + CallsOf(b.syn, cs))
            else ScanBlock(b, CallsSpelled(b.syn, cs) + rest, calls).Bad?
    decreases |cs|
  {
    hide ScanBlock, WellFormed, CallSpelled, IsCall, Arguments, ParamsOf;
    if cs == [] {
      assert CallsOf(b.syn, []) == [] && calls + [] == calls && "" + rest == rest;
    } else {
      var tail := CallsSpelled(b.syn, cs[1..]) + rest;
      assert CallsSpelled(b.syn, cs) + rest == CallSpelled(b.syn, cs[0]) + tail;
      assert forall i :: 0 <= i < |cs[1..]| ==> cs[1..][i] == cs[i + 1];
      CallScans(b, cs[0], calls, tail);
      CallsScan(b, cs[1..], calls + [CallOf(b.syn, cs[0])], rest);
      assert calls + [CallOf(b.syn, cs[0])] + CallsOf(b.syn, cs[1..]) == calls + CallsOf(b.syn, cs);
      ValidInTurn(b.json, CallOf(b.syn, cs[0]), CallsOf(b.syn, cs[1..]), b.live);
    }
  }

  lemma ValidInTurn(json: Json, c: Call, cs: seq<Call>, live: bool)
    ensures AllValid(json, [c] + cs, 0, live) ==
            (json.valid(Arguments(json, c.params, live)) && AllValid(json, cs, 0, live))
  {
    hide Arguments;
    var all := [c] + cs;
    assert all[0] == c && forall i :: 0 <= i < |cs| ==> cs[i] == all[i + 1];
  }

  // ----- both readers -----

  /** Every spelling of both tables can carry attributes. */
  lemma TablesQuote(dialect: Dialect, i: nat)
    requires i < |Table(dialect)|
    ensures Quotable(Table(dialect)[i])
  {
    hide WellFormed;
    var sep := if dialect == Dsml41 then " " else "";
    MarkerIsClean(sep);
    assert forall k :: 0 <= k < |MARKER_SHORT + sep| ==> (MARKER_SHORT + sep)[k] !in "\">" by {
      assert forall k :: 0 <= k < |MARKER_SHORT| ==> MARKER_SHORT[k] == (MARKER + "")[k + 3];
    }
    var marker := if i == 0 then MARKER + sep else if i == 1 then MARKER_SHORT + sep else "";
    NoneIn("<", marker, "invoke", "\">");
    NoneIn("<", marker, "parameter", "\">");
  }

  /** A spelled block is the first thing that opens behind plain content, in its own spelling. */
  lemma BlockOpensHere(d: Reader, content: string, syn: Syntax, s: SpelledBlock, rest: string)
    requires !IsXml(d.dialect) && syn in d.table && Unambiguous(d.table) && Quotable(syn) && IsBlock(syn, s)
    requires ContentBeforeTag(d, content)
    ensures var t := content + BlockSpelled(syn, s) + rest;
            && OpensBlock(d, t, |content|, syn, !s.wrapped) && t[|content|..] == BlockSpelled(syn, s) + rest
  {
    hide MarkerAt, NextMarker, WellFormed, CallsSpelled, IsCall, EOS;
    var block := BlockSpelled(syn, s) + rest;
    var t := content + BlockSpelled(syn, s) + rest;
    assert t == content + block && t[|content|..] == block;
    BlockBegins(d, syn, s, rest);
    var b := content + "<";
    assert t == b + block[1..];
    forall j | 0 <= j < |content| ensures MarkerAt(d, t[j..]) == NoMarker {
      assert b[|content|] == '<';
      SettledTextIsContent(d, b, block[1..], j);
    }
    NextMarkerIs(d, t, |content|);
  }

  lemma BlockBegins(d: Reader, syn: Syntax, s: SpelledBlock, rest: string)
    requires !IsXml(d.dialect) && syn in d.table && Unambiguous(d.table) && IsBlock(syn, s)
    ensures var r := BlockSpelled(syn, s) + rest;
            r != "" && r[0] == '<' && MarkerAt(d, r) == Opens(syn, !s.wrapped)
  {
    hide WellFormed, ToolStartAt, InvokeAt, EOS, CallsSpelled, IsTag, TagText, IsCall;
    if s.wrapped {
      SyntaxOpens(syn);
      var tail := CallsSpelled(syn, s.calls) + s.end + syn.toolEnd + rest;
      assert BlockSpelled(syn, s) + rest == syn.toolStart + tail;
      UnlikeEosIsFinal(syn.toolStart, syn.toolStart, tail);
      WrapperFound(d.table, syn, tail);
    } else {
      var c := s.calls[0];
      BareText(syn, s.calls, rest);
      BareBegins(d, syn, c.tag, ParamsSpelled(syn, c.params) + c.end + syn.invokeEnd +
                                (CallsSpelled(syn, s.calls[1..]) + rest));
    }
  }

  lemma BareBegins(d: Reader, syn: Syntax, t: Tag, tail: string)
    requires !IsXml(d.dialect) && syn in d.table && Unambiguous(d.table) && IsTag(t)
    ensures var r := TagText(syn.invokeStart, t) + tail;
            r != "" && r[0] == '<' && MarkerAt(d, r) == Opens(syn, true)
  {
    hide WellFormed, OpenAt, EOS, IsTag, TagText, OpensTag, Unambiguous;
    SyntaxOpens(syn);
    var r := TagText(syn.invokeStart, t) + tail;
    TagOpensAt(syn.invokeStart, t, tail);
    assert r + "" == r;
    TagStarts(r, syn.invokeStart);
    UnlikeEosIsFinal(r, syn.invokeStart, "");
    InvokeBegins(d.table, syn, r);
  }

  /** The text of calls of which the first has no white space in front. */
  lemma BareText(syn: Syntax, cs: seq<SpelledCall>, rest: string)
    requires cs != [] && AreCalls(syn, cs) && cs[0].gap == ""
    ensures var c := cs[0];
            && IsTag(c.tag)
            && CallsSpelled(syn, cs) + rest == TagText(syn.invokeStart, c.tag) + (ParamsSpelled(syn, c.params) + c.end +
               syn.invokeEnd + (CallsSpelled(syn, cs[1..]) + rest))
  {
    hide WellFormed, TagText, ParamsSpelled, IsTag, NameOf;
    assert IsCall(syn, cs[0]);
  }

  /** A tag that opens a call of one spelling opens no block of another, and no wrapper. */
  lemma InvokeBegins(table: seq<Syntax>, syn: Syntax, r: string)
    requires syn in table && Unambiguous(table) && OpensTag(r, syn.invokeStart)
    ensures OpenAt(table, r) == Opens(syn, true)
  {
    hide WellFormed, OpensTag, ToolStartAt, InvokeAt;
    var i :| 0 <= i < |table| && table[i] == syn;
    forall j | 0 <= j < |table| ensures Apart(syn.invokeStart, table[j].toolStart) {
      ApartIsSymmetric(table[j].toolStart, table[i].invokeStart);
    }
    assert syn.invokeStart <= r by {
      TagStarts(r, syn.invokeStart);
    }
    NoToolStart(table, r, syn.invokeStart);
    InvokeThere(table, syn, r);
  }

  lemma TagStarts(r: string, start: string)
    requires OpensTag(r, start)
    ensures start <= r
  {}

  lemma {:induction false} InvokeThere(table: seq<Syntax>, syn: Syntax, r: string)
    requires syn in table && OpensTag(r, syn.invokeStart)
    requires forall i :: 0 <= i < |table| ==> table[i] == syn || Apart(syn.invokeStart, table[i].invokeStart)
    ensures InvokeAt(table, r) == Opens(syn, true)
  {
    if table[0] != syn {
      assert r + "" == r;
      ApartIsFinal(r, syn.invokeStart, table[0].invokeStart, "");
      InvokeThere(table[1..], syn, r);
    }
  }

  /** The scans of a spelled block, by either reader: its calls, when their arguments are JSON as it records them. */
  lemma BlockScans(d: Reader, syn: Syntax, s: SpelledBlock, live: bool, rest: string)
    requires Quotable(syn) && IsBlock(syn, s)
    requires !s.wrapped ==> !OpensTag(SkipSpace(rest), syn.invokeStart)
    ensures var b := Block(syn, !s.wrapped, d.json, live);
            var r := BlockSpelled(syn, s) + rest;
            var scan := ScanBlock(b, if s.wrapped then DropPrefix(r, syn.toolStart) else r, []);
            if AllValid(d.json, CallsOf(syn, s.calls), 0, live)
            then scan == Closed(CallsOf(syn, s.calls), if s.wrapped then rest else SkipSpace(rest)) else scan.Bad?
  {
    hide WellFormed, ScanBlock, CallsSpelled, IsCall, AllValid, SkipSpace, OpensTag, CallsOf;
    var b := Block(syn, !s.wrapped, d.json, live);
    var calls := CallsOf(syn, s.calls);
    assert [] + calls == calls;
    if s.wrapped {
      var tail := s.end + (syn.toolEnd + rest);
      assert BlockSpelled(syn, s) + rest == syn.toolStart + (CallsSpelled(syn, s.calls) + tail);
      CallsScan(b, s.calls, [], tail);
      CloseTags(syn);
      GapSkipped(s.end, syn.toolEnd + rest);
      GapSkipped("", syn.toolEnd + rest);
      assert "" + (syn.toolEnd + rest) == syn.toolEnd + rest;
      BlockSkips(b, tail, calls);
      BlockSteps(b, syn.toolEnd + rest, calls);
      assert (syn.toolEnd + rest)[|syn.toolEnd|..] == rest;
    } else {
      CallsScan(b, s.calls, [], rest);
      BlockSkips(b, rest, calls);
      SkipSpaceIdempotent(rest);
      BlockSteps(b, SkipSpace(rest), calls);
      assert calls != [] by {
        SomeCalls(syn, s.calls);
      }
    }
  }

  lemma SomeCalls(syn: Syntax, cs: seq<SpelledCall>)
    requires cs != []
    ensures CallsOf(syn, cs) != []
  {}

  /** Every spelling of a block, behind plain content and in front of white space or the end of the sentence. The batch
      reader returns the calls it spells, and the stream decoder shows them; each reports no call exactly when the
      arguments, as it records them, are not JSON. Only a block without a wrapper needs the end-of-sentence token, and
      only for the stream. */
  lemma SpelledReads(dialect: Dialect, json: Json, literal: string -> bool, content: string, i: nat, s: SpelledBlock,
          rest: string)
    requires !IsXml(dialect) && i < |Table(dialect)| && IsBlock(Table(dialect)[i], s)
    requires ContentBeforeTag(ReaderOf(dialect, json, literal), content) && AsciiBlank(UpToEos(rest))
    ensures var d, syn := ReaderOf(dialect, json, literal), Table(dialect)[i];
            var t := content + BlockSpelled(syn, s) + rest;
            var calls, m := CallsOf(syn, s.calls), ParseCompletion(d, t, false);
            && (if AllValid(json, calls, 0, false)
                then m.malformed == None && m.content == TrimSpace(content) && SameCalls(json, m.calls, calls)
                else m.malformed == Some(MalformedBlock) && m.calls == [])
            && DecideAll(d, false, t).calls == (if AllValid(json, calls, 0, true) && (s.wrapped || Contains(rest, EOS))
                                                then Some(calls) else None)
  {
    hide WellFormed, MarkerAt, NextMarker, ScanBlock, BlockSpelled, CallsOf, IsBlock, AllValid, SameCalls, UpToEos,
         AsciiBlank, Table, EOS, ParseContent, Decide, Unambiguous, SkipSpace, ContentBeforeTag, XmlForms, Quotable,
         TrimSpace;
    var d, syn := ReaderOf(dialect, json, literal), Table(dialect)[i];
    var t := content + BlockSpelled(syn, s) + rest;
    TablesAreUnambiguous(dialect);
    TablesQuote(dialect, i);
    BlockOpensHere(d, content, syn, s, rest);
    NoCallFollows(syn, rest);
    BlockScans(d, syn, s, false, rest);
    BlockScans(d, syn, s, true, rest);
    assert t[..|content|] == content;
    SpelledParsed(d, t, |content|, syn, s, rest);
    SpelledStreamed(d, t, |content|, syn, s, rest);
  }

  lemma SpelledParsed(d: Reader, t: string, n: nat, syn: Syntax, s: SpelledBlock, rest: string)
    requires OpensBlock(d, t, n, syn, !s.wrapped) && t[n..] == BlockSpelled(syn, s) + rest
    requires Quotable(syn) && IsBlock(syn, s) && AsciiBlank(UpToEos(rest))
    ensures var calls, m := CallsOf(syn, s.calls), ParseContent(d, t);
            if AllValid(d.json, calls, 0, false)
            then m.malformed == None && m.content == TrimSpace(t[..n]) && SameCalls(d.json, m.calls, calls)
            else m.malformed == Some(MalformedBlock) && m.calls == []
  {
    hide WellFormed, MarkerAt, NextMarker, ScanBlock, BlockSpelled, CallsOf, IsBlock, AllValid, SameCalls, UpToEos,
         AsciiBlank, EOS, ParseContent, SkipSpace, TrimSpace, OpensBlock, Quotable, OpensTag;
    NoCallFollows(syn, rest);
    BlockScans(d, syn, s, false, rest);
    BlockParsed(d, t, n, syn, !s.wrapped);
  }

  lemma SpelledStreamed(d: Reader, t: string, n: nat, syn: Syntax, s: SpelledBlock, rest: string)
    requires OpensBlock(d, t, n, syn, !s.wrapped) && t[n..] == BlockSpelled(syn, s) + rest && !IsXml(d.dialect)
    requires Quotable(syn) && IsBlock(syn, s) && AsciiBlank(UpToEos(rest))
    ensures var calls := CallsOf(syn, s.calls);
            Decide(d, t).calls == if AllValid(d.json, calls, 0, true) && (s.wrapped || Contains(rest, EOS))
                                  then Some(calls) else None
  {
    hide WellFormed, MarkerAt, NextMarker, ScanBlock, BlockSpelled, CallsOf, IsBlock, AllValid, UpToEos, AsciiBlank,
         EOS, SkipSpace, Quotable, OpensTag, CutAfter;
    NoCallFollows(syn, rest);
    BlockScans(d, syn, s, true, rest);
    SkipSpaceIdempotent(rest);
    TrailingText(rest);
    EosIsOpener();
    assert Decide(d, t) == Judge(d, t, t[..n], !s.wrapped, ScanOpened(d, syn, !s.wrapped, t[n..]));
  }

  /** Neither white space nor the end-of-sentence token opens a call. */
  lemma NoCallFollows(syn: Syntax, rest: string)
    requires AsciiBlank(UpToEos(rest))
    ensures !OpensTag(SkipSpace(rest), syn.invokeStart)
    ensures SkipSpace(rest) == "" || EOS <= SkipSpace(rest)
    ensures AsciiBlank(UpToEos(SkipSpace(rest))) && (Contains(SkipSpace(rest), EOS) <==> Contains(rest, EOS))
  {
    hide UpToEos, AsciiBlank, SkipSpace, WellFormed, EOS;
    EosIsOpener();
    SyntaxOpens(syn);
    TrailingText(rest);
    var t := SkipSpace(rest);
    SkipSpaceIdempotent(rest);
    TrailingText(t);
    assert t + "" == t;
    if syn.invokeStart <= t {
      UnlikeEosIsFinal(t, syn.invokeStart, "");
    }
  }

  function PlainTag(name: string): Tag {
    Listed([Attribute(" ", "name", name)], "")
  }

  /** The plain spelling of a call whose parameter has no string attribute: its value is a string. */
  function PlainCall(): SpelledBlock {
    SpelledBlock(true, [SpelledCall("", PlainTag("f"), [SpelledParam("", PlainTag("q"), "abc")], "")], "")
  }

  lemma PlainCallIsString()
    ensures IsBlock(PlainTags(), PlainCall())
    ensures ParamOf(PlainTags(), PlainCall().calls[0].params[0]) == Param("q", "abc", "abc", true)
  {
    hide IsNamed, WellFormed, Index, NameOf, Reading, Unescape;
    var syn, c := PlainTags(), PlainCall().calls[0];
    PlainName(syn.invokeStart, "f");
    PlainName(syn.paramStart, "q");
    CloseTags(syn);
    NoClosers("abc", syn.paramEnd);
    assert IsParam(syn, c.params[0]) && IsCall(syn, c);
  }

  lemma PlainName(start: string, name: string)
    requires |name| == 1 && Lacks(name, "\"=>&")
    ensures IsNamed(start, PlainTag(name)) && NameOf(start, PlainTag(name)) == name
    ensures Reading(start, PlainTag(name), "string") == None
  {
    var attrs := [Attribute(" ", "name", name)];
    assert attrs[1..] == [];
    assert name[0] != '&';
    PlainUnescapes(name);
    assert Value(attrs, "name") == Some(name) && Value(attrs[1..], "string") == None;
    assert IsListed(attrs, "");
  }

  lemma NoClosers(s: string, end: string)
    requires IsCloseTag(end) && Lacks(s, "<&")
    ensures !Contains(s, end) && Unescape(s, end) == s
  {
    hide Index;
    IndexIsFirst(s, end);
    assert forall j :: 0 <= j < |s| ==> s[j..][0] == s[j];
  }
}
