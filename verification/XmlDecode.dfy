/** The batch readers of GLM and Qwen calls (dsml/glm.go, dsml/qwen.go): the index loops, proved against the grammar. */
module XmlDecode {
  import opened Text
  import opened ToolText
  import opened Markup
  import opened Calls
  import opened Grammar
  import opened Phases
  import opened Transitions
  import opened Decode

  lemma CollectNext(json: Json, ps: seq<Param>, p: Param)
    ensures Collect(json, ps + [p], false) == SetArg(Collect(json, ps, false), p.key, Fragment(json, p, false))
  {
    assert (ps + [p])[..|ps|] == ps;
  }

  lemma NoneCollected(json: Json)
    ensures Collect(json, [], false) == []
  {}

  // ----- moving through the text -----

  /** Past a tag the text begins with at `index`. */
  method SkipTag(text: string, index: nat, tag: string) returns (next: nat)
    requires index <= |text| && tag <= text[index..]
    ensures next == index + |tag| <= |text| && text[next..] == text[index..][|tag|..]
  {
    TagAtIndex(text, index, |tag|);
    next := index + |tag|;
  }

  /** The text up to `tag`, and past it. */
  method ReadUntil(text: string, index: nat, tag: string) returns (ok: bool, body: string, next: nat)
    requires index <= |text|
    ensures ok <==> Index(text[index..], tag) >= 0
    ensures index <= next <= |text|
    ensures ok ==> body == text[index..][..Index(text[index..], tag)]
    ensures ok ==> next == index + |body| + |tag| && text[next..] == text[index..][|body| + |tag|..]
  {
    hide Index;
    var end := Index(text[index..], tag);
    if end < 0 {
      return false, "", index;
    }
    body := text[index..][..end];
    TagAtIndex(text, index, end + |tag|);
    return true, body, index + end + |tag|;
  }

  /** A name closed by `>` with no `<` in it. */
  method ReadName(text: string, index: nat) returns (ok: bool, name: string, next: nat)
    requires index <= |text|
    ensures var r := text[index..];
            var gt := IndexAngle(r);
            ok <==> gt >= 0 && r[gt] == '>' && TrimSpace(r[..gt]) != ""
    ensures index <= next <= |text|
    ensures ok ==> var r := text[index..];
            name == TrimSpace(r[..IndexAngle(r)]) && index < next && text[next..] == r[IndexAngle(r) + 1..]
  {
    hide IndexAngle, TrimSpace;
    var r := text[index..];
    var gt := IndexAngle(r);
    if gt < 0 || r[gt] != '>' {
      return false, "", index;
    }
    name := TrimSpace(r[..gt]);
    TagAtIndex(text, index, gt + 1);
    return name != "", name, index + gt + 1;
  }

  // ----- GLM -----

  /** After a key: its value element. */
  function GlmAtValue(x: XmlSyntax, r: string, calls: seq<Call>, name: string, ps: seq<Param>, key: string): Scan {
    if x.valueStart <= r then GlmValue(x, r[|x.valueStart|..], calls, name, ps, key) else Bad(r)
  }

  lemma GlmKeyMissing(x: XmlSyntax, r: string, calls: seq<Call>, name: string, ps: seq<Param>)
    requires !(x.callEnd <= r) && (!(x.keyStart <= r) || Index(r[|x.keyStart|..], x.keyEnd) < 0)
    ensures GlmArgs(x, r, calls, name, ps).Bad?
  {
    hide GlmValue, GlmAfter, TrimSpace, Unescape, SkipSpace, XmlWellFormed, Index;
  }

  lemma GlmKeyPresent(x: XmlSyntax, r: string, calls: seq<Call>, name: string, ps: seq<Param>)
    requires !(x.callEnd <= r) && KeyComplete(x, r)
    ensures if KeyText(x, r) == "" then GlmArgs(x, r, calls, name, ps).Bad?
            else SameScan(GlmArgs(x, r, calls, name, ps), GlmAtValue(x, AfterKey(x, r), calls, name, ps, KeyText(x, r)))
  {
    hide GlmArgs, GlmValue, XmlWellFormed, KeyComplete, KeyText, AfterKey;
    GlmKeySteps(x, calls, name, ps, r);
  }

  /** Either the same result, or both malformed. */
  predicate SameScan(a: Scan, b: Scan) {
    a == b || (a.Bad? && b.Bad?)
  }

  lemma KeyEndIsTag(x: XmlSyntax)
    ensures x.keyEnd != []
  {}

  /** The body of an `<arg_key>` element. */
  method GlmKeyBody(x: XmlSyntax, text: string, start: nat, ghost r: string) returns (ok: bool, body: string,
          index: nat)
    requires start <= |text| && r == text[start..]
    ensures start <= index <= |text| && (ok ==> start < index)
    ensures ok <==> x.keyStart <= r && Index(r[|x.keyStart|..], x.keyEnd) >= 0
    ensures ok ==>
              var b := r[|x.keyStart|..];
              var end := Index(b, x.keyEnd);
              body == b[..end] && text[index..] == b[end + |x.keyEnd|..]
  {
    hide XmlWellFormed, Index;
    KeyEndIsTag(x);
    if !(x.keyStart <= text[start..]) {
      return false, "", start;
    }
    index := SkipTag(text, start, x.keyStart);
    ok, body, index := ReadUntil(text, index, x.keyEnd);
  }

  /** One `<arg_key>` element and the white space after it. */
  method GlmParseKey(x: XmlSyntax, text: string, start: nat, ghost r: string) returns (ok: bool, key: string,
          index: nat)
    requires start <= |text| && r == text[start..]
    ensures start <= index <= |text|
    ensures ok <==> KeyComplete(x, r) && KeyText(x, r) != ""
    ensures ok ==> start < index && key == KeyText(x, r) && text[index..] == AfterKey(x, r)
  {
    hide XmlWellFormed, Index, TrimSpace, Unescape, SkipSpace, KeyComplete, KeyText, AfterKey;
    KeyIs(x, r);
    KeyEndIsTag(x);
    var body;
    ok, body, index := GlmKeyBody(x, text, start, r);
    if !ok {
      return false, "", start;
    }
    key := UnescapeToolText(TrimSpace(body), x.keyEnd);
    index := SkipWhitespace(text, index);
    ok := key != "";
  }

  /** One `<arg_key>` and its `<arg_value>`. */
  method GlmParseArgument(d: Reader, text: string, start: nat, args: OrderedArgs, ghost calls: seq<Call>,
          ghost name: string, ghost ps: seq<Param>)
      returns (ok: bool, index: nat, ghost p: Param)
    requires start <= |text| && !(d.xml.callEnd <= text[start..])
    requires args.Valid() && args.Contents() == Collect(d.json, ps, false)
    modifies args
    ensures args.Valid() && start <= index <= |text|
    ensures !ok ==> GlmArgs(d.xml, text[start..], calls, name, ps).Bad?
    ensures ok ==> start < index && args.Contents() == Collect(d.json, ps + [p], false)
    ensures ok ==> SameScan(GlmArgs(d.xml, text[start..], calls, name, ps),
                            GlmArgs(d.xml, text[index..], calls, name, ps + [p]))
  {
    hide GlmArgs, GlmValue, Collect, SetArg, XmlWellFormed, KeyText, AfterKey, KeyComplete;
    var x := d.xml;
    p := Param("", "", "", true);
    var key;
    ok, key, index := GlmParseKey(x, text, start, text[start..]);
    if !ok {
      GlmNoKey(x, text[start..], calls, name, ps);
      return;
    }
    GlmKeyPresent(x, text[start..], calls, name, ps);
    if !(x.valueStart <= text[index..]) {
      return false, index, p;
    }
    index := SkipTag(text, index, x.valueStart);
    ok, index, p := GlmParseValue(d, text, index, args, key, calls, name, ps);
  }

  lemma GlmNoKey(x: XmlSyntax, r: string, calls: seq<Call>, name: string, ps: seq<Param>)
    requires !(x.callEnd <= r) && (!KeyComplete(x, r) || KeyText(x, r) == "")
    ensures GlmArgs(x, r, calls, name, ps).Bad?
  {
    hide GlmArgs, KeyText, XmlWellFormed, Index;
    if KeyComplete(x, r) {
      GlmKeyPresent(x, r, calls, name, ps);
    } else {
      GlmKeyMissing(x, r, calls, name, ps);
    }
  }

  /** The rest of an `<arg_value>` element. */
  method GlmParseValue(d: Reader, text: string, start: nat, args: OrderedArgs, key: string, ghost calls: seq<Call>,
          ghost name: string, ghost ps: seq<Param>)
      returns (ok: bool, index: nat, ghost p: Param)
    requires start <= |text|
    requires args.Valid() && args.Contents() == Collect(d.json, ps, false)
    modifies args
    ensures args.Valid() && start <= index <= |text|
    ensures !ok ==> GlmValue(d.xml, text[start..], calls, name, ps, key).Bad?
    ensures ok ==> args.Contents() == Collect(d.json, ps + [p], false)
    ensures ok ==>
            GlmValue(d.xml, text[start..], calls, name, ps, key) == GlmArgs(d.xml, text[index..], calls, name, ps + [p])
  {
    hide GlmArgs, Collect, SetArg, XmlWellFormed, Index, Unescape;
    var x := d.xml;
    var body;
    p := Param("", "", "", true);
    ok, body, index := ReadUntil(text, start, x.valueEnd);
    if !ok {
      return;
    }
    XmlCloseTags(x);
    var value := UnescapeToolText(body, x.valueEnd);
    p := Param(key, value, value, true);
    CollectNext(d.json, ps, p);
    args.Set(d.json, key, value, true);
  }

  /** `glmParseOneCall`, from just past `<tool_call>`. */
  method GlmParseOneCall(d: Reader, text: string, start: nat, ghost calls: seq<Call>)
      returns (ok: bool, index: nat, name: string, arguments: string, ghost c: Call)
    requires start <= |text|
    ensures start <= index <= |text|
    ensures !ok ==> GlmName(d.xml, text[start..], calls).Bad?
    ensures ok ==> start < index && name == c.name && arguments == Arguments(d.json, c.params, false)
    ensures ok ==> SameScan(GlmName(d.xml, text[start..], calls), GlmAfter(d.xml, text[index..], calls + [c]))
  {
    hide GlmName, GlmArgs, GlmAfter, XmlWellFormed, Index, TrimSpace, Arguments;
    var x := d.xml;
    index, name, arguments, c := start, "", "", Call("", []);
    var r := text[start..];
    var lt := Index(r, "<");
    GlmNameSteps(x, r, calls);
    if lt < 0 || (!(x.keyStart <= r[lt..]) && !(x.callEnd <= r[lt..])) || TrimSpace(r[..lt]) == "" {
      return false, index, name, arguments, c;
    }
    name := TrimSpace(r[..lt]);
    index := start + lt;
    assert r[lt..] == text[index..];
    ghost var ps;
    ok, index, arguments, ps := GlmParseArguments(d, text, index, calls, name);
    c := Call(name, ps);
  }

  /** The arguments of a call, and `</tool_call>`. */
  method GlmParseArguments(d: Reader, text: string, start: nat, ghost calls: seq<Call>, ghost name: string)
      returns (ok: bool, index: nat, arguments: string, ghost ps: seq<Param>)
    requires start <= |text|
    ensures start <= index <= |text|
    ensures !ok ==> GlmArgs(d.xml, text[start..], calls, name, []).Bad?
    ensures ok ==> start < index && arguments == Arguments(d.json, ps, false)
    ensures ok ==>
            SameScan(GlmArgs(d.xml, text[start..], calls, name, []), GlmAfter(d.xml, text[index..], calls +
                [Call(name, ps)]))
  {
    hide GlmArgs, GlmAfter, XmlWellFormed, Collect, BuildJson;
    var x := d.xml;
    XmlTagsNonEmpty(x);
    index, arguments, ps := start, "", [];
    var args := new OrderedArgs();
    NoneCollected(d.json);
    while !(x.callEnd <= text[index..])
      invariant start <= index <= |text| && args.Valid() && fresh(args)
      invariant args.Contents() == Collect(d.json, ps, false)
      invariant SameScan(GlmArgs(x, text[start..], calls, name, []), GlmArgs(x, text[index..], calls, name, ps))
      decreases |text| - index
    {
      ghost var p;
      ok, index, p := GlmParseArgument(d, text, index, args, calls, name, ps);
      if !ok {
        return;
      }
      ps := ps + [p];
    }
    GlmCallSteps(x, text[index..], calls, name, ps);
    index := SkipTag(text, index, x.callEnd);
    arguments := args.Build(d.json);
    ok := true;
  }

  lemma GlmNameSteps(x: XmlSyntax, r: string, calls: seq<Call>)
    ensures var lt := Index(r, "<");
            if lt < 0 || (!(x.keyStart <= r[lt..]) && !(x.callEnd <= r[lt..])) ||
                TrimSpace(r[..lt]) == "" then GlmName(x, r, calls).Bad?
            else GlmName(x, r, calls) == GlmArgs(x, r[lt..], calls, TrimSpace(r[..lt]), [])
  {
    hide GlmArgs, Index, TrimSpace, XmlWellFormed;
  }

  lemma GlmCallSteps(x: XmlSyntax, r: string, calls: seq<Call>, name: string, ps: seq<Param>)
    requires x.callEnd <= r
    ensures GlmArgs(x, r, calls, name, ps) == GlmAfter(x, r[|x.callEnd|..], calls + [Call(name, ps)])
  {
    hide GlmAfter, GlmValue, XmlWellFormed;
  }

  lemma GlmAfterSteps(x: XmlSyntax, r: string, calls: seq<Call>)
    ensures var t := SkipSpace(r);
            GlmAfter(x, r, calls) == if x.callStart <= t then GlmName(x, t[|x.callStart|..], calls)
                else Closed(calls, r)
  {
    hide GlmName, SkipSpace, XmlWellFormed;
  }

  /** `glmParseToolCalls`: the run of adjacent calls whose first `<tool_call>` ends at `start`. */
  method GlmParseToolCalls(d: Reader, text: string, start: nat) returns (ok: bool, calls: seq<ToolCall>, index: nat,
          ghost read: seq<Call>)
    requires start <= |text|
    ensures !ok ==> GlmName(d.xml, text[start..], []).Bad?
    ensures ok ==>
            start <= index <= |text| && calls == AllReturned(d.json, read, "") &&
                GlmName(d.xml, text[start..], []) == Closed(read, text[index..])
  {
    hide GlmName, GlmAfter, XmlWellFormed, AllReturned;
    NoneReturned(d.json);
    index, calls, read := start, [], [];
    ghost var all := GlmName(d.xml, text[start..], []);
    var more := true;
    while more
      invariant start <= index <= |text|
      invariant calls == AllReturned(d.json, read, "")
      invariant if more then SameScan(all, GlmName(d.xml, text[index..], read)) else all == Closed(read, text[index..])
      decreases more, |text| - index
    {
      var call;
      ghost var c;
      ok, more, index, call, c := GlmParseNext(d, text, index, read);
      if !ok {
        return;
      }
      ReturnedAppends(d.json, read, c, "");
      read := read + [c];
      calls := calls + [call];
    }
    ok := true;
  }

  lemma NoneReturned(json: Json)
    ensures AllReturned(json, [], "") == []
  {}

  /** One call, and past the next `<tool_call>` if one is adjacent. */
  method GlmParseNext(d: Reader, text: string, start: nat, ghost read: seq<Call>)
      returns (ok: bool, more: bool, index: nat, call: ToolCall, ghost c: Call)
    requires start <= |text|
    ensures start <= index <= |text|
    ensures !ok ==> GlmName(d.xml, text[start..], read).Bad?
    ensures ok ==> start < index && call == Returned(d.json, c, "")
    ensures ok ==> SameScan(GlmName(d.xml, text[start..], read),
                            if more then GlmName(d.xml, text[index..], read + [c])
                                else Closed(read + [c], text[index..]))
  {
    hide GlmName, GlmAfter, XmlWellFormed, SkipSpace, Arguments;
    var name, arguments;
    more := false;
    call := ToolCall("", "", "");
    ok, index, name, arguments, c := GlmParseOneCall(d, text, start, read);
    if !ok {
      return;
    }
    call := ToolCall(name, arguments, "");
    GlmAfterSteps(d.xml, text[index..], read + [c]);
    var next := SkipWhitespace(text, index);
    if d.xml.callStart <= text[next..] {
      more := true;
      index := SkipTag(text, next, d.xml.callStart);
    }
  }

  // ----- Qwen -----

  lemma QwenParamBad(x: XmlSyntax, literal: string -> bool, r: string, calls: seq<Call>, name: string, ps: seq<Param>)
    requires SkipSpace(r) == r && !(x.fnEnd <= r) && !(x.paramStart <= r)
    ensures QwenParams(x, literal, r, calls, name, ps).Bad?
  {
    hide QwenValue, IndexAngle, TrimSpace, SkipSpace, XmlWellFormed, QwenFnEnd;
  }

  lemma QwenParamGood(x: XmlSyntax, literal: string -> bool, r: string, calls: seq<Call>, name: string, ps: seq<Param>)
    requires SkipSpace(r) == r && !(x.fnEnd <= r) && x.paramStart <= r
    ensures QwenParams(x, literal, r, calls, name, ps) ==
            QwenAtName(x, literal, r, r[|x.paramStart|..], calls, name, ps)
  {
    hide QwenValue, IndexAngle, TrimSpace, SkipSpace, XmlWellFormed, QwenFnEnd;
  }

  /** From just past `<parameter=`. */
  function QwenAtName(x: XmlSyntax, literal: string -> bool, r: string, body: string, calls: seq<Call>, name: string,
          ps: seq<Param>): Scan {
    var gt := IndexAngle(body);
    if gt < 0 then Bad("")
    else if body[gt] != '>' || TrimSpace(body[..gt]) == "" then Bad(r)
    else QwenValue(x, literal, body[gt + 1..], calls, name, ps, TrimSpace(body[..gt]))
  }

  /** `<parameter=NAME>`. */
  method QwenParseHead(x: XmlSyntax, text: string, start: nat, ghost literal: string -> bool, ghost calls: seq<Call>,
          ghost name: string, ghost ps: seq<Param>)
      returns (ok: bool, key: string, index: nat)
    requires start <= |text| && SkipSpace(text[start..]) == text[start..] && !(x.fnEnd <= text[start..])
    ensures start <= index <= |text|
    ensures !ok ==> QwenParams(x, literal, text[start..], calls, name, ps).Bad?
    ensures ok ==> start < index
    ensures ok ==>
            QwenParams(x, literal, text[start..], calls, name, ps) ==
                QwenValue(x, literal, text[index..], calls, name, ps, key)
  {
    hide QwenParams, QwenValue, XmlWellFormed, TrimSpace, SkipSpace, IndexAngle;
    if !(x.paramStart <= text[start..]) {
      QwenParamBad(x, literal, text[start..], calls, name, ps);
      return false, "", start;
    }
    QwenParamGood(x, literal, text[start..], calls, name, ps);
    index := SkipTag(text, start, x.paramStart);
    ok, key, index := ReadName(text, index);
  }

  /** One `<parameter=KEY>` element. */
  method QwenParseParameter(d: Reader, text: string, start: nat, args: OrderedArgs, ghost calls: seq<Call>,
          ghost name: string, ghost ps: seq<Param>)
      returns (ok: bool, index: nat, ghost p: Param)
    requires start <= |text| && SkipSpace(text[start..]) == text[start..] && !(d.xml.fnEnd <= text[start..])
    requires args.Valid() && args.Contents() == Collect(d.json, ps, false)
    modifies args
    ensures args.Valid() && start <= index <= |text|
    ensures !ok ==> QwenParams(d.xml, d.qwenLiteral, text[start..], calls, name, ps).Bad?
    ensures ok ==> start < index && args.Contents() == Collect(d.json, ps + [p], false)
    ensures ok ==> SameScan(QwenParams(d.xml, d.qwenLiteral, text[start..], calls, name, ps),
                            QwenParams(d.xml, d.qwenLiteral, text[index..], calls, name, ps + [p]))
  {
    hide QwenParams, QwenValue, Collect, XmlWellFormed, SkipSpace, QwenParam, Fragment;
    p := Param("", "", "", true);
    var key;
    ok, key, index := QwenParseHead(d.xml, text, start, d.qwenLiteral, calls, name, ps);
    if !ok {
      return;
    }
    ok, index, p := QwenParseValue(d, text, index, args, key, calls, name, ps);
  }

  /** The rest of a `<parameter=KEY>` element. */
  method QwenParseValue(d: Reader, text: string, start: nat, args: OrderedArgs, key: string, ghost calls: seq<Call>,
          ghost name: string, ghost ps: seq<Param>)
      returns (ok: bool, index: nat, ghost p: Param)
    requires start <= |text|
    requires args.Valid() && args.Contents() == Collect(d.json, ps, false)
    modifies args
    ensures args.Valid() && start <= index <= |text|
    ensures !ok ==> QwenValue(d.xml, d.qwenLiteral, text[start..], calls, name, ps, key).Bad?
    ensures ok ==> args.Contents() == Collect(d.json, ps + [p], false)
    ensures ok ==> QwenValue(d.xml, d.qwenLiteral, text[start..], calls, name, ps, key)
                   == QwenParams(d.xml, d.qwenLiteral, text[index..], calls, name, ps + [p])
  {
    hide QwenParams, Collect, SetArg, XmlWellFormed, Index, QwenParam, Fragment;
    var x := d.xml;
    var body;
    p := Param("", "", "", true);
    ok, body, index := ReadUntil(text, start, x.paramEnd);
    if !ok {
      return;
    }
    p := QwenParam(x, d.qwenLiteral, key, body);
    CollectNext(d.json, ps, p);
    QwenSet(d, args, key, body);
  }

  /** A value is recorded as JSON when it reads as JSON, else as a string. */
  method QwenSet(d: Reader, args: OrderedArgs, key: string, raw: string)
    requires args.Valid()
    modifies args
    ensures args.Valid()
    ensures var p := QwenParam(d.xml, d.qwenLiteral, key, raw);
            args.Contents() == SetArg(old(args.Contents()), key, Fragment(d.json, p, false)) && p.key == key
  {
    hide SetArg, Unescape, TrimValue, StripNewlines, XmlWellFormed;
    XmlCloseTags(d.xml);
    var value := StripNewlines(raw);
    if d.qwenLiteral(value) {
      args.Set(d.json, key, TrimValue(value), false);
    } else {
      value := UnescapeToolText(value, d.xml.paramEnd);
      args.Set(d.json, key, value, true);
    }
  }

  lemma QwenParamsSkips(x: XmlSyntax, literal: string -> bool, r: string, calls: seq<Call>, name: string,
          ps: seq<Param>)
    ensures SameScan(QwenParams(x, literal, r, calls, name, ps), QwenParams(x, literal, SkipSpace(r), calls, name, ps))
  {
    hide QwenParams, SkipSpace, XmlWellFormed, Index, QwenAt;
    QwenParamsAt(x, literal, r, calls, name, ps);
    QwenParamsAt(x, literal, SkipSpace(r), calls, name, ps);
    SkipSpaceIdempotent(r);
  }

  /** What the text after the white space begins with decides. */
  function QwenAt(x: XmlSyntax, literal: string -> bool, t: string, calls: seq<Call>, name: string,
          ps: seq<Param>): Scan {
    if x.fnEnd <= t then QwenFnEnd(x, literal, t[|x.fnEnd|..], calls, name, ps)
    else if x.paramStart <= t then QwenAtName(x, literal, t, t[|x.paramStart|..], calls, name, ps)
    else Bad(t)
  }

  lemma QwenParamsAt(x: XmlSyntax, literal: string -> bool, r: string, calls: seq<Call>, name: string, ps: seq<Param>)
    ensures SameScan(QwenParams(x, literal, r, calls, name, ps), QwenAt(x, literal, SkipSpace(r), calls, name, ps))
  {
    hide QwenFnEnd, QwenValue, SkipSpace, TrimSpace, IndexAngle, XmlWellFormed;
  }

  lemma QwenFnEndSteps(x: XmlSyntax, literal: string -> bool, r: string, calls: seq<Call>, name: string, ps: seq<Param>)
    requires SkipSpace(r) == r && x.fnEnd <= r
    ensures QwenParams(x, literal, r, calls, name, ps) == QwenFnEnd(x, literal, r[|x.fnEnd|..], calls, name, ps)
  {
    hide QwenFnEnd, QwenValue, SkipSpace, TrimSpace, IndexAngle, XmlWellFormed;
  }

  lemma QwenCloseSteps(x: XmlSyntax, literal: string -> bool, r: string, calls: seq<Call>, name: string, ps: seq<Param>)
    ensures var t := SkipSpace(r);
            if x.callEnd <= t then QwenFnEnd(x, literal, r, calls, name, ps) ==
                QwenAfter(x, literal, t[|x.callEnd|..], calls + [Call(name, ps)])
            else QwenFnEnd(x, literal, r, calls, name, ps).Bad?
  {
    hide QwenAfter, SkipSpace, XmlWellFormed;
  }

  /** The parameters of a call up to its `</function>`. */
  method QwenParseParameters(d: Reader, text: string, start: nat, args: OrderedArgs, ghost calls: seq<Call>,
          ghost name: string)
      returns (ok: bool, index: nat, ghost ps: seq<Param>)
    requires start <= |text| && args.Valid() && args.Contents() == []
    modifies args
    ensures start <= index <= |text| && args.Valid()
    ensures !ok ==> QwenParams(d.xml, d.qwenLiteral, text[start..], calls, name, []).Bad?
    ensures ok ==> args.Contents() == Collect(d.json, ps, false)
    ensures ok ==> SameScan(QwenParams(d.xml, d.qwenLiteral, text[start..], calls, name, []),
                            QwenFnEnd(d.xml, d.qwenLiteral, text[index..], calls, name, ps))
  {
    hide QwenParams, QwenFnEnd, XmlWellFormed, SkipSpace, Collect;
    var x := d.xml;
    ps := [];
    NoneCollected(d.json);
    QwenParamsSkips(x, d.qwenLiteral, text[start..], calls, name, ps);
    index := SkipWhitespace(text, start);
    while !(x.fnEnd <= text[index..])
      invariant start <= index <= |text| && args.Valid() && SkipSpace(text[index..]) == text[index..]
      invariant args.Contents() == Collect(d.json, ps, false)
      invariant SameScan(QwenParams(x, d.qwenLiteral, text[start..], calls, name, []),
                         QwenParams(x, d.qwenLiteral, text[index..], calls, name, ps))
      decreases |text| - index
    {
      ghost var p;
      ok, index, p := QwenParseParameter(d, text, index, args, calls, name, ps);
      if !ok {
        return;
      }
      ps := ps + [p];
      QwenParamsSkips(x, d.qwenLiteral, text[index..], calls, name, ps);
      index := SkipWhitespace(text, index);
    }
    QwenFnEndSteps(x, d.qwenLiteral, text[index..], calls, name, ps);
    index := SkipTag(text, index, x.fnEnd);
    ok := true;
  }

  /** The parameters of a call, `</function>` and `</tool_call>`. */
  method QwenParseBody(d: Reader, text: string, start: nat, ghost calls: seq<Call>, ghost name: string)
      returns (ok: bool, index: nat, arguments: string, ghost ps: seq<Param>)
    requires start <= |text|
    ensures start <= index <= |text|
    ensures !ok ==> QwenParams(d.xml, d.qwenLiteral, text[start..], calls, name, []).Bad?
    ensures ok ==> arguments == Arguments(d.json, ps, false)
    ensures ok ==> SameScan(QwenParams(d.xml, d.qwenLiteral, text[start..], calls, name, []),
                            QwenAfter(d.xml, d.qwenLiteral, text[index..], calls + [Call(name, ps)]))
  {
    hide QwenParams, QwenAfter, QwenFnEnd, XmlWellFormed, SkipSpace, Collect, BuildJson;
    var x := d.xml;
    arguments := "";
    var args := new OrderedArgs();
    ok, index, ps := QwenParseParameters(d, text, start, args, calls, name);
    if !ok {
      return;
    }
    QwenCloseSteps(x, d.qwenLiteral, text[index..], calls, name, ps);
    index := SkipWhitespace(text, index);
    if !(x.callEnd <= text[index..]) {
      return false, index, arguments, ps;
    }
    index := SkipTag(text, index, x.callEnd);
    arguments := args.Build(d.json);
  }

  lemma QwenFnBad(x: XmlSyntax, literal: string -> bool, r: string, calls: seq<Call>)
    requires !(x.fnStart <= SkipSpace(r))
    ensures QwenFn(x, literal, r, calls).Bad?
  {
    hide QwenParams, SkipSpace, TrimSpace, IndexAngle, XmlWellFormed;
  }

  lemma QwenFnGood(x: XmlSyntax, literal: string -> bool, r: string, calls: seq<Call>)
    requires x.fnStart <= SkipSpace(r)
    ensures var body := SkipSpace(r)[|x.fnStart|..];
            var gt := IndexAngle(body);
            QwenFn(x, literal, r, calls) ==
            if gt < 0 then Bad("") else if body[gt] != '>' || TrimSpace(body[..gt]) == "" then Bad(r)
            else QwenParams(x, literal, body[gt + 1..], calls, TrimSpace(body[..gt]), [])
  {
    hide QwenParams, SkipSpace, TrimSpace, IndexAngle, XmlWellFormed;
  }

  /** `qwenParseOneCall`, from just past `<tool_call>`. */
  method QwenParseOneCall(d: Reader, text: string, start: nat, ghost calls: seq<Call>)
      returns (ok: bool, index: nat, name: string, arguments: string, ghost c: Call)
    requires start <= |text|
    ensures start <= index <= |text|
    ensures !ok ==> QwenFn(d.xml, d.qwenLiteral, text[start..], calls).Bad?
    ensures ok ==> start < index && name == c.name && arguments == Arguments(d.json, c.params, false)
    ensures ok ==> SameScan(QwenFn(d.xml, d.qwenLiteral, text[start..], calls),
                            QwenAfter(d.xml, d.qwenLiteral, text[index..], calls + [c]))
  {
    hide QwenFn, QwenParams, QwenAfter, XmlWellFormed, TrimSpace, IndexAngle, SkipSpace, Arguments;
    var x := d.xml;
    name, arguments, c := "", "", Call("", []);
    index := SkipWhitespace(text, start);
    if !(x.fnStart <= text[index..]) {
      QwenFnBad(x, d.qwenLiteral, text[start..], calls);
      return false, index, name, arguments, c;
    }
    QwenFnGood(x, d.qwenLiteral, text[start..], calls);
    index := SkipTag(text, index, x.fnStart);
    ok, name, index := ReadName(text, index);
    if !ok {
      return;
    }
    ghost var ps;
    ok, index, arguments, ps := QwenParseBody(d, text, index, calls, name);
    c := Call(name, ps);
  }

  lemma QwenAfterSteps(x: XmlSyntax, literal: string -> bool, r: string, calls: seq<Call>)
    ensures var t := SkipSpace(r);
            QwenAfter(x, literal, r, calls) == if x.callStart <= t then QwenFn(x, literal, t[|x.callStart|..], calls)
                else Closed(calls, r)
  {
    hide QwenFn, SkipSpace, XmlWellFormed;
  }

  /** One call, and past the next `<tool_call>` if one is adjacent. */
  method QwenParseNext(d: Reader, text: string, start: nat, ghost read: seq<Call>)
      returns (ok: bool, more: bool, index: nat, call: ToolCall, ghost c: Call)
    requires start <= |text|
    ensures start <= index <= |text|
    ensures !ok ==> QwenFn(d.xml, d.qwenLiteral, text[start..], read).Bad?
    ensures ok ==> start < index && call == Returned(d.json, c, "")
    ensures ok ==> SameScan(QwenFn(d.xml, d.qwenLiteral, text[start..], read),
                            if more then QwenFn(d.xml, d.qwenLiteral, text[index..], read + [c])
                                else Closed(read + [c], text[index..]))
  {
    hide QwenFn, QwenAfter, XmlWellFormed, SkipSpace, Arguments;
    var name, arguments;
    more := false;
    call := ToolCall("", "", "");
    ok, index, name, arguments, c := QwenParseOneCall(d, text, start, read);
    if !ok {
      return;
    }
    call := ToolCall(name, arguments, "");
    QwenAfterSteps(d.xml, d.qwenLiteral, text[index..], read + [c]);
    var next := SkipWhitespace(text, index);
    if d.xml.callStart <= text[next..] {
      more := true;
      index := SkipTag(text, next, d.xml.callStart);
    }
  }

  /** `qwenParseToolCalls`: the run of adjacent calls whose first `<tool_call>` ends at `start`. */
  method QwenParseToolCalls(d: Reader, text: string, start: nat) returns (ok: bool, calls: seq<ToolCall>, index: nat,
          ghost read: seq<Call>)
    requires start <= |text|
    ensures !ok ==> QwenFn(d.xml, d.qwenLiteral, text[start..], []).Bad?
    ensures ok ==>
            start <= index <= |text| && calls == AllReturned(d.json, read, "") &&
                QwenFn(d.xml, d.qwenLiteral, text[start..], []) == Closed(read, text[index..])
  {
    hide QwenFn, XmlWellFormed, AllReturned;
    NoneReturned(d.json);
    index, calls, read := start, [], [];
    ghost var all := QwenFn(d.xml, d.qwenLiteral, text[start..], []);
    var more := true;
    while more
      invariant start <= index <= |text|
      invariant calls == AllReturned(d.json, read, "")
      invariant if more then SameScan(all, QwenFn(d.xml, d.qwenLiteral, text[index..], read))
                else all == Closed(read, text[index..])
      decreases more, |text| - index
    {
      var call;
      ghost var c;
      ok, more, index, call, c := QwenParseNext(d, text, index, read);
      if !ok {
        return;
      }
      ReturnedAppends(d.json, read, c, "");
      read := read + [c];
      calls := calls + [call];
    }
    ok := true;
  }
}
