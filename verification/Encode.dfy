/** The writers of tool-call blocks (dsml/encode.go, dsml/dsml.go). */
module Encode {
  import opened Text
  import opened ToolText
  import opened Markup
  import opened Calls
  import opened Grammar

  /** A JSON value as `json.Unmarshal` into a string sees it: a string, null (read as the empty string),
      or anything else, kept as its compact text. */
  datatype Value = Str(text: string) | Null | Literal(text: string)

  datatype Argument = Argument(key: string, value: Value)

  /** The arguments of a call: an object's pairs in document order, or text that is no JSON object. */
  datatype Input = Object(pairs: seq<Argument>) | Other(text: string)

  datatype Request = Request(name: string, input: Input)

  // ----- attributes -----

  /** `validateTagAttribute`. */
  predicate ValidAttribute(s: string) {
    s != "" && forall i :: 0 <= i < |s| ==> s[i] != '\r' && s[i] != '\n' && s[i] != '\t'
  }

  function AttrEntity(c: char): string {
    if c == '&' then "&amp;" else if c == '<' then "&lt;" else if c == '>' then "&gt;" else if c == '\"' then "&quot;"
        else [c]
  }

  function AttrEscape(s: string): string {
    if s == "" then "" else AttrEntity(s[0]) + AttrEscape(s[1..])
  }

  /** `dsmlEscapeAttr`. */
  method EscapeAttr(s: string) returns (b: string)
    ensures b == AttrEscape(s)
  {
    b := "";
    var i := 0;
    while i < |s|
      invariant 0 <= i <= |s|
      invariant b + AttrEscape(s[i..]) == AttrEscape(s)
    {
      assert s[i..][1..] == s[i + 1..];
      assert b + (AttrEntity(s[i]) + AttrEscape(s[i + 1..])) == b + AttrEntity(s[i]) + AttrEscape(s[i + 1..]);
      match s[i] {
        case '&' => b := b + "&amp;";
        case '<' => b := b + "&lt;";
        case '>' => b := b + "&gt;";
        case '\"' => b := b + "&quot;";
        case _ => b := b + [s[i]];
      }
      i := i + 1;
    }
  }

  /** Attribute text reads back as written. */
  lemma {:induction false} AttrRoundTrip(s: string)
    ensures AttrUnescape(AttrEscape(s)) == s
  {
    if s != "" {
      var e, t := AttrEntity(s[0]), AttrEscape(s[1..]);
      assert e <= e + t && (e + t)[|e|..] == t;
      EntityReads(s[0], t);
      AttrRoundTrip(s[1..]);
    }
  }

  lemma EntityReads(c: char, t: string)
    ensures EntityAt(AttrEntity(c) + t) == (c, |AttrEntity(c)|)
  {
    var s := AttrEntity(c) + t;
    assert s[0] == AttrEntity(c)[0];
    if c == '&' || c == '<' || c == '>' || c == '\"' {
      assert s[1] == AttrEntity(c)[1] && s[..|AttrEntity(c)|] == AttrEntity(c);
    }
  }

  /** Escaped attributes hold no quote and no angle bracket. */
  lemma {:induction false} AttrClean(s: string)
    ensures forall i :: 0 <= i < |AttrEscape(s)| ==> AttrEscape(s)[i] !in "\"<>"
  {
    if s != "" {
      AttrClean(s[1..]);
    }
  }

  lemma {:induction false} AttrEscapeAppends(a: string, b: string)
    ensures AttrEscape(a + b) == AttrEscape(a) + AttrEscape(b)
  {
    if a == "" {
      assert a + b == b;
    } else {
      assert (a + b)[1..] == a[1..] + b && (a + b)[0] == a[0];
      AttrEscapeAppends(a[1..], b);
    }
  }

  predicate EndsWith(s: string, w: string) {
    |w| <= |s| && s[|s| - |w|..] == w
  }

  /** Escaping neither makes nor hides a tail free of the characters it writes. */
  lemma {:induction false} AttrTail(s: string, w: string)
    requires forall i :: 0 <= i < |w| ==> w[i] !in "&<>\";"
    ensures EndsWith(AttrEscape(s), w) <==> EndsWith(s, w)
  {
    hide AttrEscape, AttrEntity, EndsWith;
    if w == "" || s == "" {
      ShortTails(s, w);
    } else {
      var a, c, v, l := s[..|s| - 1], s[|s| - 1], w[..|w| - 1], w[|w| - 1];
      AttrTail(a, v);
      assert s == a + [c] && w == v + [l];
      AttrEscapeAppends(a, [c]);
      OneEntity(c);
      TailSteps(s, a, c, v, l);
      EntityTail(AttrEscape(a), c, v, l);
    }
  }

  lemma ShortTails(s: string, w: string)
    requires w == "" || s == ""
    ensures EndsWith(AttrEscape(s), w) <==> EndsWith(s, w)
  {}

  lemma OneEntity(c: char)
    ensures AttrEscape([c]) == AttrEntity(c)
  {
    assert AttrEscape([c][1..]) == "";
  }

  lemma EntityTail(e: string, c: char, v: string, l: char)
    requires l !in "&<>\";"
    ensures EndsWith(e + AttrEntity(c), v + [l]) <==> EndsWith(e, v) && c == l
  {
    var s, w := e + AttrEntity(c), v + [l];
    if AttrEntity(c) == [c] {
      TailSteps(s, e, c, v, l);
    } else {
      assert s[|s| - 1] == ';';
      assert |w| <= |s| ==> s[|s| - |w|..][|v|] == ';';
      assert w[|v|] == l;
    }
  }

  lemma TailSteps(s: string, a: string, c: char, v: string, l: char)
    requires s == a + [c]
    ensures EndsWith(s, v + [l]) <==> EndsWith(a, v) && c == l
  {
    var w := v + [l];
    if EndsWith(s, w) {
      assert s[|s| - |w|..][|v|] == c;
      assert a[|a| - |v|..] == s[|s| - |w|..][..|v|];
      assert w[..|v|] == v;
    }
    if EndsWith(a, v) && c == l {
      assert s[|s| - |w|..] == a[|a| - |v|..] + [c];
    }
  }

  // ----- JSON literals -----

  const ESCAPED_ANGLE := "\\u003c"

  /** `escapeJSONLiteralSyn`: every close tag spelled with a JSON escape. */
  function EscapeLiteral(s: string, end: string): string
    requires end != ""
    decreases |s|
  {
    if end <= s then ESCAPED_ANGLE + end[1..] + EscapeLiteral(s[|end|..], end)
    else if s == "" then ""
    else [s[0]] + EscapeLiteral(s[1..], end)
  }

  /** A close tag whose spelling no JSON escape can complete. */
  predicate LiteralSafe(end: string) {
    IsCloseTag(end) && '\\' !in end
  }

  /** An escaped literal never closes its element. */
  lemma {:induction false} LiteralStaysOpen(s: string, end: string)
    requires LiteralSafe(end)
    ensures !Contains(EscapeLiteral(s, end), end)
    decreases |s|
  {
    if end <= s {
      LiteralStaysOpen(s[|end|..], end);
      var head, e := ESCAPED_ANGLE + end[1..], EscapeLiteral(s[|end|..], end);
      assert forall i :: 0 <= i < |head| ==> head[i] != '<' by {
        assert forall i :: 0 <= i < |end[1..]| ==> end[1..][i] != '<';
      }
      StaysAbsent(head, e, end);
    } else if s != "" {
      LiteralStaysOpen(s[1..], end);
      var e := EscapeLiteral(s[1..], end);
      LiteralTail(s[1..], end[1..], end);
      assert s == [s[0]] + s[1..] && end == [end[0]] + end[1..];
      ByteInFront(s[0], e, end);
    } else {
      assert EscapeLiteral("", end) == "";
    }
  }

  lemma StaysAbsent(head: string, e: string, end: string)
    requires IsCloseTag(end) && !Contains(e, end) && forall i :: 0 <= i < |head| ==> head[i] != '<'
    ensures !Contains(head + e, end)
  {
    IndexIsFirst(e, end);
    IndexIsFirst(head + e, end);
    forall j | 0 <= j <= |head + e| ensures !(end <= (head + e)[j..]) {
      if j < |head| {
        assert (head + e)[j..][0] == head[j];
      } else {
        assert (head + e)[j..] == e[j - |head|..];
      }
    }
  }

  lemma ByteInFront(c: char, e: string, end: string)
    requires IsCloseTag(end) && !Contains(e, end) && !(end <= [c] + e)
    ensures !Contains([c] + e, end)
  {
    IndexIsFirst(e, end);
    IndexIsFirst([c] + e, end);
    forall j | 0 <= j <= |[c] + e| ensures !(end <= ([c] + e)[j..]) {
      if j == 0 {
        assert ([c] + e)[0..] == [c] + e;
      } else {
        assert ([c] + e)[j..] == e[j - 1..];
      }
    }
  }

  /** Text without `<` and backslash at the front of an escaped literal was there before. */
  lemma {:induction false} LiteralTail(s: string, w: string, end: string)
    requires LiteralSafe(end) && forall i :: 0 <= i < |w| ==> w[i] != '<' && w[i] != '\\'
    ensures w <= EscapeLiteral(s, end) ==> w <= s
    decreases |s|
  {
    assert end <= s ==> EscapeLiteral(s, end)[0] == '\\';
    if w != "" && s != "" && !(end <= s) && w <= EscapeLiteral(s, end) {
      assert EscapeLiteral(s, end)[0] == w[0];
      assert EscapeLiteral(s, end)[1..] == EscapeLiteral(s[1..], end);
      LiteralTail(s[1..], w[1..], end);
      assert w == [w[0]] + w[1..] && s == [s[0]] + s[1..];
    }
  }

  // ----- elements -----

  function BoolText(b: bool): string {
    if b then "true" else "false"
  }

  /** The text written for a value, and whether it is marked as a string. */
  function ValueText(syn: Syntax, v: Value): (string, bool) {
    match v
    case Str(s) => (Escape(s, syn.paramEnd), true)
    case Null => (Escape("", syn.paramEnd), true)
    case Literal(s) => (EscapeLiteral(s, syn.paramEnd), false)
  }

  function ParamTag(syn: Syntax, key: string, isString: bool): string {
    syn.paramStart + " name=\"" + AttrEscape(key) + "\" string=\"" + BoolText(isString) + "\">"
  }

  function ParamText(syn: Syntax, a: Argument): string {
    var v := ValueText(syn, a.value);
    ParamTag(syn, a.key, v.1) + v.0 + syn.paramEnd
  }

  /** The pairs written for a call; text that is no object becomes one string. */
  function PairsOf(input: Input): seq<Argument> {
    match input
    case Object(pairs) => pairs
    case Other(text) => [Argument("arguments", Str(text))]
  }

  /** A call's parameters and its close tag. */
  function ParamsText(syn: Syntax, pairs: seq<Argument>): string {
    if pairs == [] then "\n" + syn.invokeEnd else "\n" + ParamText(syn, pairs[0]) + ParamsText(syn, pairs[1..])
  }

  function InvokeTag(syn: Syntax, name: string): string {
    syn.invokeStart + " name=\"" + AttrEscape(name) + "\">"
  }

  function InvokeText(syn: Syntax, c: Request): string {
    InvokeTag(syn, c.name) + ParamsText(syn, PairsOf(c.input))
  }

  /** The calls of a block and its close tag. */
  function InvokesText(syn: Syntax, cs: seq<Request>): string {
    if cs == [] then "\n" + syn.toolEnd else "\n" + InvokeText(syn, cs[0]) + InvokesText(syn, cs[1..])
  }

  function BlockText(syn: Syntax, cs: seq<Request>): string {
    if cs == [] then "" else "\n\n" + syn.toolStart + InvokesText(syn, cs)
  }

  predicate RenderablePairs(pairs: seq<Argument>) {
    forall i :: 0 <= i < |pairs| ==> ValidAttribute(pairs[i].key)
  }

  predicate Renderable(c: Request) {
    ValidAttribute(c.name) && RenderablePairs(PairsOf(c.input))
  }

  function Join(lines: seq<string>, sep: string): string {
    if lines == [] then ""
    else if |lines| == 1 then lines[0]
    else lines[0] + sep + Join(lines[1..], sep)
  }

  function Lines(syn: Syntax, pairs: seq<Argument>): (r: seq<string>)
    ensures |r| == |pairs|
  {
    if pairs == [] then [] else [ParamText(syn, pairs[0])] + Lines(syn, pairs[1..])
  }

  function Invokes(syn: Syntax, cs: seq<Request>): (r: seq<string>)
    ensures |r| == |cs|
  {
    if cs == [] then [] else [InvokeText(syn, cs[0])] + Invokes(syn, cs[1..])
  }

  /** `parameterElementSyn`. */
  method ParameterElement(syn: Syntax, name: string, value: string, isString: bool) returns (r: Option<string>)
    ensures r == if ValidAttribute(name) then
            Some(ParamText(syn, Argument(name, if isString then Str(value) else Literal(value)))) else None
  {
    if !ValidAttribute(name) {
      return None;
    }
    CloseTags(syn);
    var text;
    if isString {
      text := EscapeToolText(value, syn.paramEnd);
    } else {
      text := EscapeLiteral(value, syn.paramEnd);
    }
    var attr := EscapeAttr(name);
    return Some(syn.paramStart + " name=\"" + attr + "\" string=\"" + BoolText(isString) + "\">" + text + syn.paramEnd);
  }

  /** `encodeArgumentsSyn`. */
  method EncodeArguments(syn: Syntax, input: Input) returns (r: Option<string>)
    ensures r == if RenderablePairs(PairsOf(input)) then Some(Join(Lines(syn, PairsOf(input)), "\n")) else None
  {
    hide WellFormed, Escape, EscapeLiteral, ParamText, AttrEscape;
    match input {
      case Other(text) =>
        r := ParameterElement(syn, "arguments", text, true);
        assert Join(Lines(syn, [Argument("arguments", Str(text))]), "\n") ==
               ParamText(syn, Argument("arguments", Str(text))) by {
          assert Lines(syn, [Argument("arguments", Str(text))]) ==
                 [ParamText(syn, Argument("arguments", Str(text)))] + Lines(syn, []);
        }
      case Object(pairs) =>
        var lines := [];
        var i := 0;
        while i < |pairs|
          invariant 0 <= i <= |pairs|
          invariant lines == Lines(syn, pairs[..i])
          invariant forall k :: 0 <= k < i ==> ValidAttribute(pairs[k].key)
        {
          var p := pairs[i];
          if !ValidAttribute(p.key) {
            return None;
          }
          var line;
          match p.value {
            case Str(s) => line := ParameterElement(syn, p.key, s, true);
            case Null => line := ParameterElement(syn, p.key, "", true);
            case Literal(s) => line := ParameterElement(syn, p.key, s, false);
          }
          NullIsEmpty(syn, p.key);
          LinesAppend(syn, pairs[..i], p);
          assert pairs[..i + 1] == pairs[..i] + [p];
          lines := lines + [line.value];
          i := i + 1;
        }
        assert pairs[..i] == pairs;
        r := Some(Join(lines, "\n"));
    }
  }

  lemma NullIsEmpty(syn: Syntax, key: string)
    ensures ParamText(syn, Argument(key, Null)) == ParamText(syn, Argument(key, Str("")))
  {}

  lemma {:induction false} LinesAppend(syn: Syntax, pairs: seq<Argument>, a: Argument)
    ensures Lines(syn, pairs + [a]) == Lines(syn, pairs) + [ParamText(syn, a)]
  {
    hide ParamText;
    if pairs == [] {
      assert pairs + [a] == [a];
      assert Lines(syn, [a]) == [ParamText(syn, a)] + Lines(syn, []);
    } else {
      assert (pairs + [a])[1..] == pairs[1..] + [a];
      LinesAppend(syn, pairs[1..], a);
    }
  }

  lemma {:induction false} InvokesAppend(syn: Syntax, cs: seq<Request>, c: Request)
    ensures Invokes(syn, cs + [c]) == Invokes(syn, cs) + [InvokeText(syn, c)]
  {
    hide InvokeText;
    if cs == [] {
      assert cs + [c] == [c];
      assert Invokes(syn, [c]) == [InvokeText(syn, c)] + Invokes(syn, []);
    } else {
      assert (cs + [c])[1..] == cs[1..] + [c];
      InvokesAppend(syn, cs[1..], c);
    }
  }

  /** `renderToolCallSyn`. */
  method RenderToolCall(syn: Syntax, c: Request) returns (r: Option<string>)
    ensures r == if Renderable(c) then Some(InvokeText(syn, c)) else None
  {
    hide WellFormed, Lines, Join, ParamsText, RenderablePairs, AttrEscape;
    if !ValidAttribute(c.name) {
      return None;
    }
    var encoded := EncodeArguments(syn, c.input);
    if encoded == None {
      return None;
    }
    var body := encoded.value;
    ParamsJoined(syn, PairsOf(c.input));
    if body != "" {
      body := "\n" + body;
    }
    var attr := EscapeAttr(c.name);
    r := Some(syn.invokeStart + " name=\"" + attr + "\">" + body + "\n" + syn.invokeEnd);
    assert r.value == InvokeTag(syn, c.name) + (body + "\n" + syn.invokeEnd);
  }

  lemma {:induction false} ParamsJoined(syn: Syntax, pairs: seq<Argument>)
    ensures var body := Join(Lines(syn, pairs), "\n");
            ParamsText(syn, pairs) == (if body != "" then "\n" + body else body) + "\n" + syn.invokeEnd
  {
    hide ParamText;
    if pairs != [] {
      ParamNonEmpty(syn, pairs[0]);
      ParamsJoined(syn, pairs[1..]);
      JoinFirst(ParamText(syn, pairs[0]), Lines(syn, pairs[1..]));
      if pairs[1..] != [] {
        ParamNonEmpty(syn, pairs[1]);
        assert Lines(syn, pairs[1..])[0] == ParamText(syn, pairs[1]);
        assert Join(Lines(syn, pairs[1..]), "\n") != "";
      }
    }
  }

  lemma ParamNonEmpty(syn: Syntax, a: Argument)
    ensures ParamText(syn, a) != ""
  {
    TagsNonEmpty(syn);
  }

  lemma JoinFirst(x: string, lines: seq<string>)
    ensures Join([x] + lines, "\n") == if lines == [] then x else x + "\n" + Join(lines, "\n")
  {
    assert ([x] + lines)[1..] == lines;
  }

  /** `RenderToolCallsSyntax` of the block dialects. */
  method RenderToolCalls(syn: Syntax, cs: seq<Request>) returns (r: Option<string>)
    ensures r == if forall i :: 0 <= i < |cs| ==> Renderable(cs[i]) then Some(BlockText(syn, cs)) else None
  {
    hide WellFormed, InvokeText, InvokesText, Join, Renderable;
    if |cs| == 0 {
      return Some("");
    }
    var invokes := [];
    var i := 0;
    while i < |cs|
      invariant 0 <= i <= |cs|
      invariant invokes == Invokes(syn, cs[..i])
      invariant forall k :: 0 <= k < i ==> Renderable(cs[k])
    {
      var invoke := RenderToolCall(syn, cs[i]);
      if invoke == None {
        return None;
      }
      InvokesAppend(syn, cs[..i], cs[i]);
      assert cs[..i + 1] == cs[..i] + [cs[i]];
      invokes := invokes + [invoke.value];
      i := i + 1;
    }
    assert cs[..i] == cs;
    InvokesJoined(syn, cs);
    r := Some("\n\n" + syn.toolStart + "\n" + Join(invokes, "\n") + "\n" + syn.toolEnd);
    assert r.value == "\n\n" + syn.toolStart + ("\n" + Join(invokes, "\n") + "\n" + syn.toolEnd);
  }

  lemma {:induction false} InvokesJoined(syn: Syntax, cs: seq<Request>)
    requires cs != []
    ensures InvokesText(syn, cs) == "\n" + Join(Invokes(syn, cs), "\n") + "\n" + syn.toolEnd
  {
    hide InvokeText, WellFormed;
    JoinFirst(InvokeText(syn, cs[0]), Invokes(syn, cs[1..]));
    if |cs| > 1 {
      InvokesJoined(syn, cs[1..]);
    } else {
      assert InvokesText(syn, cs[1..]) == "\n" + syn.toolEnd;
    }
  }
}
