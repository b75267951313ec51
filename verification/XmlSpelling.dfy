/** Every spelling of GLM and Qwen calls (dsml/glm.go:127-221, dsml/qwen.go:157-248): white space around names and keys
    and wherever it may stand between tags. The calls are those it spells, for both readers. */
module XmlSpelling {
  import opened Text
  import opened ToolText
  import opened Markup
  import opened Calls
  import opened Grammar
  import opened Phases
  import opened Transitions
  import opened Decode
  import opened XmlDecode
  import opened Completion
  import opened RoundTrip
  import opened XmlEncode
  import opened MessageRoundTrip
  import opened XmlMessages
  import opened StreamVsBatch
  import opened BlockSpelling

  // ----- GLM -----

  /** The text of the key and of the value, and the white space between their elements. */
  datatype GlmArgument = GlmArgument(key: string, gap: string, value: string)

  /** White space in front of the call, the text up to its first tag, and its arguments. */
  datatype GlmSpelling = GlmSpelling(gap: string, name: string, args: seq<GlmArgument>)

  function GlmArgumentText(x: XmlSyntax, a: GlmArgument): string {
    x.keyStart + a.key + x.keyEnd + a.gap + x.valueStart + a.value + x.valueEnd
  }

  function GlmArgumentsText(x: XmlSyntax, args: seq<GlmArgument>): string {
    if args == [] then x.callEnd else GlmArgumentText(x, args[0]) + GlmArgumentsText(x, args[1..])
  }

  function GlmSpelled(x: XmlSyntax, cs: seq<GlmSpelling>): string {
    if cs == [] then ""
    else cs[0].gap + x.callStart + cs[0].name + GlmArgumentsText(x, cs[0].args) + GlmSpelled(x, cs[1..])
  }

  /** Neither the key nor the value holds its close tag, and the key is not blank. */
  predicate IsGlmArgument(x: XmlSyntax, a: GlmArgument) {
    && IsGap(a.gap) && !Contains(a.key, x.keyEnd) && !Contains(a.value, x.valueEnd)
    && Unescape(TrimSpace(a.key), x.keyEnd) != ""
  }

  predicate IsGlmCall(x: XmlSyntax, c: GlmSpelling) {
    && IsGap(c.gap) && '<' !in c.name && TrimSpace(c.name) != ""
    && forall i :: 0 <= i < |c.args| ==> IsGlmArgument(x, c.args[i])
  }

  /** A run begins with its first call. */
  predicate IsGlmRun(x: XmlSyntax, cs: seq<GlmSpelling>) {
    cs != [] && cs[0].gap == "" && forall i :: 0 <= i < |cs| ==> IsGlmCall(x, cs[i])
  }

  function GlmArgumentsOf(x: XmlSyntax, args: seq<GlmArgument>): (ps: seq<Param>)
    ensures |ps| == |args|
  {
    if args == [] then []
    else
      var key, value := Unescape(TrimSpace(args[0].key), x.keyEnd), Unescape(args[0].value, x.valueEnd);
      [Param(key, value, value, true)] + GlmArgumentsOf(x, args[1..])
  }

  function GlmCallsOf(x: XmlSyntax, cs: seq<GlmSpelling>): (r: seq<Call>)
    ensures |r| == |cs|
  {
    if cs == [] then [] else [Call(TrimSpace(cs[0].name), GlmArgumentsOf(x, cs[0].args))] + GlmCallsOf(x, cs[1..])
  }

  lemma TagInside(tag: string, gap: string, rest: string)
    requires IsGap(gap) && tag != "" && tag[0] == '<'
    ensures SkipSpace(gap + tag + rest) == tag + rest && SkipSpace(tag + rest) == tag + rest
  {
    assert gap + tag + rest == gap + (tag + rest);
    GapSkipped(gap, tag + rest);
    GapSkipped("", tag + rest);
    assert "" + (tag + rest) == tag + rest;
  }

  lemma GlmArgumentScans(x: XmlSyntax, a: GlmArgument, calls: seq<Call>, name: string, ps: seq<Param>, rest: string)
    requires IsGlmArgument(x, a)
    ensures var key, value := Unescape(TrimSpace(a.key), x.keyEnd), Unescape(a.value, x.valueEnd);
            GlmArgs(x, GlmArgumentText(x, a) + rest, calls, name, ps) ==
            GlmArgs(x, rest, calls, name, ps + [Param(key, value, value, true)])
  {
    hide GlmArgs, GlmValue, KeyComplete, KeyText, AfterKey, Unescape, XmlWellFormed, SkipSpace, TrimSpace, Index;
    XmlCloseTags(x);
    XmlOpens(x);
    var value := a.value + x.valueEnd + rest;
    var after := a.gap + x.valueStart + value;
    var body := a.key + x.keyEnd + after;
    var r := x.keyStart + body;
    assert GlmArgumentText(x, a) + rest == r && r[|x.keyStart|..] == body;
    FirstCloseEndsBody(a.key, x.keyEnd, after);
    assert body[..|a.key|] == a.key && body[|a.key| + |x.keyEnd|..] == after;
    TagInside(x.valueStart, a.gap, value);
    KeyIs(x, r);
    KeyIsNoEnd(x, body);
    GlmKeySteps(x, calls, name, ps, r);
    assert (x.valueStart + value)[|x.valueStart|..] == value;
    GlmValueScans(x, a.value, calls, name, ps, Unescape(TrimSpace(a.key), x.keyEnd), rest);
  }

  lemma GlmValueScans(x: XmlSyntax, v: string, calls: seq<Call>, name: string, ps: seq<Param>, key: string,
          rest: string)
    requires !Contains(v, x.valueEnd)
    ensures var value := Unescape(v, x.valueEnd);
            GlmValue(x, v + x.valueEnd + rest, calls, name, ps, key) ==
            GlmArgs(x, rest, calls, name, ps + [Param(key, value, value, true)])
  {
    hide GlmArgs, Unescape, XmlWellFormed, Index;
    XmlCloseTags(x);
    var r := v + x.valueEnd + rest;
    FirstCloseEndsBody(v, x.valueEnd, rest);
    assert r[..|v|] == v && r[|v| + |x.valueEnd|..] == rest;
  }

  lemma {:induction false} GlmArgumentsScan(x: XmlSyntax, args: seq<GlmArgument>, calls: seq<Call>, name: string,
          ps: seq<Param>, rest: string)
    requires forall i :: 0 <= i < |args| ==> IsGlmArgument(x, args[i])
    ensures GlmArgs(x, GlmArgumentsText(x, args) + rest, calls, name, ps) ==
            GlmAfter(x, rest, calls + [Call(name, ps + GlmArgumentsOf(x, args))])
    decreases |args|
  {
    hide GlmArgs, GlmAfter, IsGlmArgument, GlmArgumentText, Unescape, TrimSpace, XmlWellFormed;
    if args == [] {
      assert ps + GlmArgumentsOf(x, []) == ps;
      GlmCallCloses(x, calls, name, ps, x.callEnd, rest);
      assert x.callEnd[|x.callEnd|..] + rest == rest;
    } else {
      var tail := GlmArgumentsText(x, args[1..]) + rest;
      assert GlmArgumentsText(x, args) + rest == GlmArgumentText(x, args[0]) + tail;
      assert forall i :: 0 <= i < |args[1..]| ==> args[1..][i] == args[i + 1];
      var p := GlmArgumentsOf(x, args)[0];
      GlmArgumentScans(x, args[0], calls, name, ps, tail);
      GlmArgumentsScan(x, args[1..], calls, name, ps + [p], rest);
      assert ps + [p] + GlmArgumentsOf(x, args[1..]) == ps + GlmArgumentsOf(x, args);
    }
  }

  /** A call's name is the text up to its first tag. */
  lemma GlmNameScans(x: XmlSyntax, c: GlmSpelling, calls: seq<Call>, rest: string)
    requires IsGlmCall(x, c)
    ensures GlmName(x, c.name + (GlmArgumentsText(x, c.args) + rest), calls) ==
            GlmArgs(x, GlmArgumentsText(x, c.args) + rest, calls, TrimSpace(c.name), [])
  {
    hide GlmArgs, Index, TrimSpace, IsGlmArgument, XmlWellFormed, Unescape;
    XmlCloseTags(x);
    XmlOpens(x);
    var body := GlmArgumentsText(x, c.args) + rest;
    assert x.keyStart <= body || x.callEnd <= body by {
      ArgumentsBegin(x, c.args, rest);
    }
    assert body[0] == '<';
    assert c.name + body == c.name + ['<'] + body[1..];
    UpTo(c.name, '<', body[1..]);
    assert (c.name + body)[..|c.name|] == c.name && (c.name + body)[|c.name|..] == body;
  }

  lemma ArgumentsBegin(x: XmlSyntax, args: seq<GlmArgument>, rest: string)
    ensures x.keyStart <= GlmArgumentsText(x, args) + rest || x.callEnd <= GlmArgumentsText(x, args) + rest
    ensures GlmArgumentsText(x, args) + rest != ""
  {
    hide XmlWellFormed, GlmArgumentText;
    XmlOpens(x);
    XmlCloseTags(x);
    if args != [] {
      ArgumentBegins(x, args[0]);
      assert GlmArgumentsText(x, args) + rest
          == GlmArgumentText(x, args[0]) + (GlmArgumentsText(x, args[1..]) + rest);
    }
  }

  lemma ArgumentBegins(x: XmlSyntax, a: GlmArgument)
    ensures x.keyStart <= GlmArgumentText(x, a)
  {
    hide XmlWellFormed;
    assert GlmArgumentText(x, a)[..|x.keyStart|] == x.keyStart;
  }

  lemma {:induction false} GlmRunScans(x: XmlSyntax, cs: seq<GlmSpelling>, calls: seq<Call>, rest: string)
    requires (forall i :: 0 <= i < |cs| ==> IsGlmCall(x, cs[i])) && !(x.callStart <= SkipSpace(rest))
    ensures GlmAfter(x, GlmSpelled(x, cs) + rest, calls) == Closed(calls + GlmCallsOf(x, cs), rest)
    decreases |cs|
  {
    hide GlmName, GlmArgs, IsGlmCall, GlmArgumentsText, GlmArgumentsOf, TrimSpace, SkipSpace, XmlWellFormed;
    if cs == [] {
      assert calls + GlmCallsOf(x, []) == calls && "" + rest == rest;
    } else {
      var c, tail := cs[0], GlmSpelled(x, cs[1..]) + rest;
      var body := c.name + (GlmArgumentsText(x, c.args) + tail);
      assert forall i :: 0 <= i < |cs[1..]| ==> cs[1..][i] == cs[i + 1];
      assert GlmSpelled(x, cs) + rest == c.gap + x.callStart + body;
      XmlOpens(x);
      assert IsGap(c.gap) && forall i :: 0 <= i < |c.args| ==> IsGlmArgument(x, c.args[i]) by {
        GlmCallParts(x, c);
      }
      TagInside(x.callStart, c.gap, body);
      assert (x.callStart + body)[|x.callStart|..] == body;
      GlmNameScans(x, c, calls, tail);
      GlmArgumentsScan(x, c.args, calls, TrimSpace(c.name), [], tail);
      var read := Call(TrimSpace(c.name), GlmArgumentsOf(x, c.args));
      assert [] + GlmArgumentsOf(x, c.args) == GlmArgumentsOf(x, c.args);
      GlmRunScans(x, cs[1..], calls + [read], rest);
      assert calls + [read] + GlmCallsOf(x, cs[1..]) == calls + GlmCallsOf(x, cs);
    }
  }

  lemma GlmCallParts(x: XmlSyntax, c: GlmSpelling)
    requires IsGlmCall(x, c)
    ensures IsGap(c.gap) && forall i :: 0 <= i < |c.args| ==> IsGlmArgument(x, c.args[i])
  {}

  /** The scan of a run. */
  lemma GlmRunIs(x: XmlSyntax, cs: seq<GlmSpelling>, rest: string)
    requires IsGlmRun(x, cs) && !(x.callStart <= SkipSpace(rest))
    ensures var r := GlmSpelled(x, cs) + rest;
            && x.callStart <= r && SkipSpace(r) == r
            && GlmAfter(x, r, []) == Closed(GlmCallsOf(x, cs), rest)
  {
    hide XmlWellFormed, GlmAfter, GlmArgumentsText, GlmCallsOf, SkipSpace, IsGlmCall;
    XmlOpens(x);
    var c := cs[0];
    var tail := c.name + GlmArgumentsText(x, c.args) + GlmSpelled(x, cs[1..]) + rest;
    assert GlmSpelled(x, cs) + rest == x.callStart + tail;
    TagInside(x.callStart, "", tail);
    GlmRunScans(x, cs, [], rest);
    assert [] + GlmCallsOf(x, cs) == GlmCallsOf(x, cs);
  }

  // ----- Qwen -----

  /** White space in front, the text up to the `>` of the tag, and the value as it is written. */
  datatype QwenArgument = QwenArgument(gap: string, key: string, value: string)

  /** White space in front of the call, in front of its function tag, in front of `</function>` and in front of
      `</tool_call>`. */
  datatype QwenSpelling = QwenSpelling(gap: string, head: string, name: string, args: seq<QwenArgument>, tail: string,
                                       end: string)

  function QwenArgumentText(x: XmlSyntax, a: QwenArgument): string {
    a.gap + x.paramStart + a.key + ">" + a.value + x.paramEnd
  }

  function QwenArgumentsText(x: XmlSyntax, args: seq<QwenArgument>): string {
    if args == [] then "" else QwenArgumentText(x, args[0]) + QwenArgumentsText(x, args[1..])
  }

  /** The calls, and the text behind them. */
  function QwenSpelled(x: XmlSyntax, cs: seq<QwenSpelling>, rest: string): string {
    if cs == [] then rest
    else
      var c := cs[0];
      c.gap + x.callStart + (c.head + x.fnStart + (c.name + ">" + (QwenArgumentsText(x, c.args) +
          (c.tail + x.fnEnd + (c.end + x.callEnd + QwenSpelled(x, cs[1..], rest))))))
  }

  predicate IsHead(name: string) {
    '<' !in name && '>' !in name && TrimSpace(name) != ""
  }

  predicate IsQwenArgument(x: XmlSyntax, a: QwenArgument) {
    IsGap(a.gap) && IsHead(a.key) && !Contains(a.value, x.paramEnd)
  }

  predicate IsQwenCall(x: XmlSyntax, c: QwenSpelling) {
    && IsGap(c.gap) && IsGap(c.head) && IsGap(c.tail) && IsGap(c.end) && IsHead(c.name)
    && forall i :: 0 <= i < |c.args| ==> IsQwenArgument(x, c.args[i])
  }

  predicate IsQwenRun(x: XmlSyntax, cs: seq<QwenSpelling>) {
    cs != [] && cs[0].gap == "" && forall i :: 0 <= i < |cs| ==> IsQwenCall(x, cs[i])
  }

  function QwenArgumentsOf(x: XmlSyntax, literal: string -> bool, args: seq<QwenArgument>): (ps: seq<Param>)
    ensures |ps| == |args|
  {
    if args == [] then []
    else [QwenParam(x, literal, TrimSpace(args[0].key), args[0].value)] + QwenArgumentsOf(x, literal, args[1..])
  }

  function QwenCallsOf(x: XmlSyntax, literal: string -> bool, cs: seq<QwenSpelling>): (r: seq<Call>)
    ensures |r| == |cs|
  {
    if cs == [] then []
    else [Call(TrimSpace(cs[0].name), QwenArgumentsOf(x, literal, cs[0].args))] + QwenCallsOf(x, literal, cs[1..])
  }

  lemma QwenArgumentScans(x: XmlSyntax, literal: string -> bool, a: QwenArgument, calls: seq<Call>, name: string,
          ps: seq<Param>, rest: string)
    requires IsQwenArgument(x, a)
    ensures QwenParams(x, literal, QwenArgumentText(x, a) + rest, calls, name, ps)
         == QwenParams(x, literal, rest, calls, name, ps + [QwenParam(x, literal, TrimSpace(a.key), a.value)])
  {
    hide QwenParams, QwenValue, XmlWellFormed, SkipSpace, TrimSpace, IndexAngle, QwenAtName, Index, Apart;
    XmlCloseTags(x);
    XmlOpens(x);
    var body := a.value + x.paramEnd + rest;
    var head := a.key + ">" + body;
    var r := x.paramStart + head;
    assert QwenArgumentText(x, a) + rest == a.gap + x.paramStart + head;
    TagInside(x.paramStart, a.gap, head);
    ApartIsFinal(x.paramStart, x.paramStart, x.fnEnd, head);
    assert r[|x.paramStart|..] == head;
    QwenParamFound(x, literal, a.gap + x.paramStart + head, r, calls, name, ps);
    HeadReads(a.key, body);
    HeadNamed(x, literal, a.gap + x.paramStart + head, a.key, body, calls, name, ps);
    FirstCloseEndsBody(a.value, x.paramEnd, rest);
    assert body[..|a.value|] == a.value && body[|a.value| + |x.paramEnd|..] == rest;
    ValueCloses(x, literal, a.value, body, rest, calls, name, ps, TrimSpace(a.key));
  }

  lemma HeadNamed(x: XmlSyntax, literal: string -> bool, r: string, key: string, body: string, calls: seq<Call>,
          name: string, ps: seq<Param>)
    requires var h := key + ">" + body;
             IndexAngle(h) == |key| && h[|key|] == '>' && h[..|key|] == key && h[|key| + 1..] == body
    requires TrimSpace(key) != ""
    ensures QwenAtName(x, literal, r, key + ">" + body, calls, name, ps) ==
            QwenValue(x, literal, body, calls, name, ps, TrimSpace(key))
  {
    hide QwenValue, TrimSpace, IndexAngle;
  }

  lemma ValueCloses(x: XmlSyntax, literal: string -> bool, v: string, body: string, rest: string, calls: seq<Call>,
          name: string, ps: seq<Param>, key: string)
    requires Index(body, x.paramEnd) == |v| && |v| + |x.paramEnd| <= |body|
    requires body[..|v|] == v && body[|v| + |x.paramEnd|..] == rest
    ensures QwenValue(x, literal, body, calls, name, ps, key)
         == QwenParams(x, literal, rest, calls, name, ps + [QwenParam(x, literal, key, v)])
  {
    hide QwenParams, QwenParam, Index, XmlWellFormed;
  }

  lemma {:induction false} QwenArgumentsScan(x: XmlSyntax, literal: string -> bool, args: seq<QwenArgument>,
          calls: seq<Call>, name: string, ps: seq<Param>, rest: string)
    requires forall i :: 0 <= i < |args| ==> IsQwenArgument(x, args[i])
    ensures QwenParams(x, literal, QwenArgumentsText(x, args) + rest, calls, name, ps)
         == QwenParams(x, literal, rest, calls, name, ps + QwenArgumentsOf(x, literal, args))
    decreases |args|
  {
    hide QwenParams, IsQwenArgument, QwenArgumentText, QwenParam, TrimSpace, XmlWellFormed;
    if args == [] {
      assert ps + QwenArgumentsOf(x, literal, []) == ps && "" + rest == rest;
    } else {
      var tail := QwenArgumentsText(x, args[1..]) + rest;
      assert QwenArgumentsText(x, args) + rest == QwenArgumentText(x, args[0]) + tail;
      assert forall i :: 0 <= i < |args[1..]| ==> args[1..][i] == args[i + 1];
      var p := QwenParam(x, literal, TrimSpace(args[0].key), args[0].value);
      QwenArgumentScans(x, literal, args[0], calls, name, ps, tail);
      QwenArgumentsScan(x, literal, args[1..], calls, name, ps + [p], rest);
      assert ps + [p] + QwenArgumentsOf(x, literal, args[1..]) == ps + QwenArgumentsOf(x, literal, args);
    }
  }

  /** The two close tags of a call. */
  lemma QwenEndScans(x: XmlSyntax, literal: string -> bool, tail: string, end: string, calls: seq<Call>, name: string,
          ps: seq<Param>, rest: string)
    requires IsGap(tail) && IsGap(end)
    ensures QwenParams(x, literal, tail + x.fnEnd + (end + x.callEnd + rest), calls, name, ps) ==
            QwenAfter(x, literal, rest, calls + [Call(name, ps)])
  {
    hide QwenAfter, SkipSpace, QwenParams, QwenFnEnd, XmlWellFormed;
    var a := end + x.callEnd + rest;
    var r := x.fnEnd + a;
    XmlCloseTags(x);
    TagInside(x.fnEnd, tail, a);
    assert r[|x.fnEnd|..] == a;
    QwenEndFound(x, literal, tail + x.fnEnd + a, r, calls, name, ps);
    TagInside(x.callEnd, end, rest);
    assert (x.callEnd + rest)[|x.callEnd|..] == rest;
    QwenCloseSteps(x, literal, a, calls, name, ps);
  }

  /** One call, from behind `<tool_call>`. */
  lemma QwenCallScans(x: XmlSyntax, literal: string -> bool, c: QwenSpelling, calls: seq<Call>, rest: string)
    requires IsQwenCall(x, c)
    ensures QwenFn(x, literal, c.head + x.fnStart + (c.name + ">" + (QwenArgumentsText(x, c.args) +
                   (c.tail + x.fnEnd + (c.end + x.callEnd + rest)))), calls)
         == QwenAfter(x, literal, rest, calls + [Call(TrimSpace(c.name), QwenArgumentsOf(x, literal, c.args))])
  {
    hide QwenFn, QwenParams, QwenAfter, QwenArgumentsText, XmlWellFormed, SkipSpace, TrimSpace, IndexAngle,
         IsQwenArgument, QwenArgumentsOf;
    XmlOpens(x);
    var last := c.tail + x.fnEnd + (c.end + x.callEnd + rest);
    var body := QwenArgumentsText(x, c.args) + last;
    var head := c.name + ">" + body;
    TagInside(x.fnStart, c.head, head);
    assert (x.fnStart + head)[|x.fnStart|..] == head;
    HeadReads(c.name, body);
    QwenFnGood(x, literal, c.head + x.fnStart + head, calls);
    var ps := QwenArgumentsOf(x, literal, c.args);
    QwenArgumentsScan(x, literal, c.args, calls, TrimSpace(c.name), [], last);
    assert [] + ps == ps;
    QwenEndScans(x, literal, c.tail, c.end, calls, TrimSpace(c.name), ps, rest);
  }

  lemma {:induction false} QwenRunScans(x: XmlSyntax, literal: string -> bool, cs: seq<QwenSpelling>, calls: seq<Call>,
          rest: string)
    requires (forall i :: 0 <= i < |cs| ==> IsQwenCall(x, cs[i])) && !(x.callStart <= SkipSpace(rest))
    ensures QwenAfter(x, literal, QwenSpelled(x, cs, rest), calls) == Closed(calls + QwenCallsOf(x, literal, cs), rest)
    decreases |cs|
  {
    hide QwenFn, IsQwenCall, QwenArgumentsText, QwenArgumentsOf, TrimSpace, SkipSpace, XmlWellFormed;
    if cs == [] {
      assert calls + QwenCallsOf(x, literal, []) == calls;
    } else {
      var c, tail := cs[0], QwenSpelled(x, cs[1..], rest);
      var body := c.head + x.fnStart + (c.name + ">" + (QwenArgumentsText(x, c.args) +
                  (c.tail + x.fnEnd + (c.end + x.callEnd + tail))));
      assert forall i :: 0 <= i < |cs[1..]| ==> cs[1..][i] == cs[i + 1];
      XmlOpens(x);
      assert IsGap(c.gap) by {
        QwenGap(x, c);
      }
      TagInside(x.callStart, c.gap, body);
      assert (x.callStart + body)[|x.callStart|..] == body;
      QwenCallScans(x, literal, c, calls, tail);
      var read := Call(TrimSpace(c.name), QwenArgumentsOf(x, literal, c.args));
      QwenRunScans(x, literal, cs[1..], calls + [read], rest);
      assert calls + [read] + QwenCallsOf(x, literal, cs[1..]) == calls + QwenCallsOf(x, literal, cs);
    }
  }

  lemma QwenGap(x: XmlSyntax, c: QwenSpelling)
    requires IsQwenCall(x, c)
    ensures IsGap(c.gap)
  {}

  /** The scan of a run. */
  lemma QwenRunIs(x: XmlSyntax, literal: string -> bool, cs: seq<QwenSpelling>, rest: string)
    requires IsQwenRun(x, cs) && !(x.callStart <= SkipSpace(rest))
    ensures var r := QwenSpelled(x, cs, rest);
            && x.callStart <= r && SkipSpace(r) == r
            && QwenAfter(x, literal, r, []) == Closed(QwenCallsOf(x, literal, cs), rest)
  {
    hide XmlWellFormed, QwenAfter, QwenArgumentsText, QwenCallsOf, SkipSpace, IsQwenCall;
    XmlOpens(x);
    var c := cs[0];
    var tail := c.head + x.fnStart + (c.name + ">" + (QwenArgumentsText(x, c.args) +
                (c.tail + x.fnEnd + (c.end + x.callEnd + QwenSpelled(x, cs[1..], rest)))));
    assert "" + x.callStart + tail == x.callStart + tail;
    TagInside(x.callStart, "", tail);
    QwenRunScans(x, literal, cs, [], rest);
    assert [] + QwenCallsOf(x, literal, cs) == QwenCallsOf(x, literal, cs);
  }
}
