/** What a completion means, as functions of the text still to be read: the block grammar
    (`parseToolCalls`), the GLM and Qwen grammars, and the verdict on a whole content. */
module Grammar {
  import opened Text
  import opened ToolText
  import opened Markup
  import opened Calls

  /** The end of a scan: the calls read and the text after them, or the text at which it failed. */
  datatype Scan = Closed(calls: seq<Call>, rest: string) | Bad(at: string)

  /** `hasTagPrefix`: an opening tag whose element name is exactly `prefix`. */
  predicate OpensTag(s: string, prefix: string) {
    prefix <= s && |s| > |prefix| && (s[|prefix|] == '>' || IsAsciiSpace(s[|prefix|]))
  }

  // ----- the block grammar -----

  datatype Block = Block(syn: Syntax, implicit: bool, json: Json, live: bool)

  datatype Header = Header(name: string, isString: bool, rest: string)

  /** `<invoke name="...">`: the tool name and the text after the tag. */
  function InvokeHeader(r: string): (h: Option<Header>)
    ensures h.Some? ==> |h.value.rest| < |r|
  {
    var gt := Index(r, ">");
    if gt < 0 then None
    else match Attr(r[..gt + 1], "name")
      case None => None
      case Some(name) => if name == "" then None else Some(Header(name, true, r[gt + 1..]))
  }

  /** `<parameter name="..." string="...">`. */
  function ParamHeader(r: string): (h: Option<Header>)
    ensures h.Some? ==> |h.value.rest| < |r|
  {
    var gt := Index(r, ">");
    if gt < 0 then None
    else match Attr(r[..gt + 1], "name")
      case None => None
      case Some(name) =>
        if name == "" then None else Some(Header(name, Attr(r[..gt + 1], "string") != Some("false"), r[gt + 1..]))
  }

  function BlockParam(syn: Syntax, key: string, raw: string, isString: bool): Param {
    var decoded := Unescape(raw, syn.paramEnd);
    Param(key, if isString then decoded else raw, decoded, isString)
  }

  function ScanBlock(b: Block, r: string, calls: seq<Call>): (s: Scan)
    ensures s.Closed? ==> |s.rest| <= |r|
    ensures s.Bad? ==> |s.at| <= |r|
    decreases |r|, 2
  {
    BlockAt(b, SkipSpace(r), calls)
  }

  /** The block at a tag. */
  function BlockAt(b: Block, r: string, calls: seq<Call>): (s: Scan)
    ensures s.Closed? ==> |s.rest| <= |r|
    ensures s.Bad? ==> |s.at| <= |r|
    decreases |r|, 1
  {
    if !b.implicit && b.syn.toolEnd <= r then Closed(calls, r[|b.syn.toolEnd|..])
    else if OpensTag(r, b.syn.invokeStart) then ScanInvoke(b, r, calls)
    else if b.implicit && calls != [] then Closed(calls, r)
    else Bad(r)
  }

  function ScanInvoke(b: Block, r: string, calls: seq<Call>): (s: Scan)
    ensures s.Closed? ==> |s.rest| <= |r|
    ensures s.Bad? ==> |s.at| <= |r|
    decreases |r|, 0
  {
    match InvokeHeader(r)
    case None => Bad(r)
    case Some(h) => ScanBody(b, h.rest, calls, h.name, [])
  }

  function ScanBody(b: Block, r: string, calls: seq<Call>, name: string, ps: seq<Param>): (s: Scan)
    ensures s.Closed? ==> |s.rest| <= |r|
    ensures s.Bad? ==> |s.at| <= |r|
    decreases |r|, 2
  {
    BodyAt(b, SkipSpace(r), calls, name, ps)
  }

  /** The body of a call at a tag. */
  function BodyAt(b: Block, r: string, calls: seq<Call>, name: string, ps: seq<Param>): (s: Scan)
    ensures s.Closed? ==> |s.rest| <= |r|
    ensures s.Bad? ==> |s.at| <= |r|
    decreases |r|, 1
  {
    if b.syn.invokeEnd <= r then
      var rest := r[|b.syn.invokeEnd|..];
      if b.json.valid(Arguments(b.json, ps, b.live)) then ScanBlock(b, rest, calls + [Call(name, ps)]) else Bad(rest)
    else if OpensTag(r, b.syn.paramStart) then ScanParam(b, r, calls, name, ps)
    else Bad(r)
  }

  function ScanParam(b: Block, r: string, calls: seq<Call>, name: string, ps: seq<Param>): (s: Scan)
    ensures s.Closed? ==> |s.rest| <= |r|
    ensures s.Bad? ==> |s.at| <= |r|
    decreases |r|, 0
  {
    match ParamHeader(r)
    case None => Bad(r)
    case Some(h) => ScanValue(b, h.rest, calls, name, ps, h.name, h.isString)
  }

  function ScanValue(b: Block, r: string, calls: seq<Call>, name: string, ps: seq<Param>, key: string,
          isString: bool): (s: Scan)
    ensures s.Closed? ==> |s.rest| <= |r|
    ensures s.Bad? ==> |s.at| <= |r|
    decreases |r|, 0
  {
    var end := Index(r, b.syn.paramEnd);
    if end < 0 then Bad(r)
    else ScanBody(b, r[end + |b.syn.paramEnd|..], calls, name, ps + [BlockParam(b.syn, key, r[..end], isString)])
  }

  // ----- GLM -----


  /** A proper prefix of `tag`: more input could still complete it (`matchPartial`). */
  predicate Partial(s: string, tag: string) {
    |s| < |tag| && s <= tag
  }

  /** From just after `<tool_call>`. A scan that runs out of input while a tag is still forming is
      `Bad("")`: everything read is then content. */
  function GlmName(x: XmlSyntax, r: string, calls: seq<Call>): (s: Scan)
    ensures s.Closed? ==> |s.rest| <= |r|
    ensures s.Bad? ==> |s.at| <= |r|
    decreases |r|, 2
  {
    var lt := Index(r, "<");
    if lt < 0 then Bad("")
    else if !(x.keyStart <= r[lt..]) && !(x.callEnd <= r[lt..]) then
      Bad(if Partial(r[lt..], x.keyStart) || Partial(r[lt..], x.callEnd) then "" else r)
    else
      var name := TrimSpace(r[..lt]);
      if name == "" then Bad(r) else GlmArgs(x, r[lt..], calls, name, [])
  }

  function GlmArgs(x: XmlSyntax, r: string, calls: seq<Call>, name: string, ps: seq<Param>): (s: Scan)
    ensures s.Closed? ==> |s.rest| <= |r|
    ensures s.Bad? ==> |s.at| <= |r|
    decreases |r|, 1
  {
    if x.callEnd <= r then GlmAfter(x, r[|x.callEnd|..], calls + [Call(name, ps)])
    else if !(x.keyStart <= r) then Bad(if Partial(r, x.keyStart) || Partial(r, x.callEnd) then "" else r)
    else
      var body := r[|x.keyStart|..];
      var end := Index(body, x.keyEnd);
      if end < 0 then Bad("")
      else
        var key := Unescape(TrimSpace(body[..end]), x.keyEnd);
        if key == "" then Bad(r)
        else
          var rest := SkipSpace(body[end + |x.keyEnd|..]);
          if !(x.valueStart <= rest) then Bad(if Partial(rest, x.valueStart) then "" else r)
          else GlmValue(x, rest[|x.valueStart|..], calls, name, ps, key)
  }

  function GlmValue(x: XmlSyntax, r: string, calls: seq<Call>, name: string, ps: seq<Param>, key: string): (s: Scan)
    ensures s.Closed? ==> |s.rest| <= |r|
    ensures s.Bad? ==> |s.at| <= |r|
    decreases |r|, 0
  {
    var end := Index(r, x.valueEnd);
    if end < 0 then Bad("")
    else
      var value := Unescape(r[..end], x.valueEnd);
      GlmArgs(x, r[end + |x.valueEnd|..], calls, name, ps + [Param(key, value, value, true)])
  }

  function GlmAfter(x: XmlSyntax, r: string, calls: seq<Call>): (s: Scan)
    ensures s.Closed? ==> |s.rest| <= |r|
    ensures s.Bad? ==> |s.at| <= |r|
    decreases |r|, 3
  {
    var t := SkipSpace(r);
    if x.callStart <= t then GlmName(x, t[|x.callStart|..], calls) else Closed(calls, r)
  }

  // ----- Qwen -----


  /** `strings.IndexAny(s, "<>")`. */
  function IndexAngle(s: string): (r: int)
    ensures -1 <= r < |s|
    ensures r >= 0 ==> s[r] == '<' || s[r] == '>'
    ensures forall j :: 0 <= j < (if r < 0 then |s| else r) ==> s[j] != '<' && s[j] != '>'
  {
    if s == [] then -1
    else if s[0] == '<' || s[0] == '>' then 0
    else var r := IndexAngle(s[1..]); if r < 0 then -1 else r + 1
  }

  /** `qwenStripValueNewlines`: the one line break framing a value at each end. */
  function StripNewlines(v: string): string {
    var v := if "\n" <= v then v[1..] else v;
    if v != [] && v[|v| - 1] == '\n' then v[..|v| - 1] else v
  }

  /** `qwenTrimValue`. */
  function TrimValue(v: string): string {
    DropTail(DropHead(v))
  }

  function DropHead(v: string): string {
    if v != [] && (v[0] == ' ' || v[0] == '\t') then DropHead(v[1..]) else v
  }

  function DropTail(v: string): string {
    if v != [] && (v[|v| - 1] == ' ' || v[|v| - 1] == '\t' || v[|v| - 1] == '\n') then DropTail(v[..|v| - 1]) else v
  }

  /** The reading of one Qwen value; `literal` is the `qwenValueIsJSON` test. */
  function QwenParam(x: XmlSyntax, literal: string -> bool, key: string, raw: string): Param {
    var v := StripNewlines(raw);
    if literal(v) then Param(key, TrimValue(v), TrimValue(v), false)
    else var text := Unescape(v, x.paramEnd); Param(key, text, text, true)
  }

  /** From just after `<tool_call>`. */
  function QwenFn(x: XmlSyntax, literal: string -> bool, r: string, calls: seq<Call>): (s: Scan)
    ensures s.Closed? ==> |s.rest| <= |r|
    ensures s.Bad? ==> |s.at| <= |r|
    decreases |r|, 2
  {
    var t := SkipSpace(r);
    if !(x.fnStart <= t) then Bad(if Partial(t, x.fnStart) then "" else r)
    else
      var body := t[|x.fnStart|..];
      var gt := IndexAngle(body);
      if gt < 0 then Bad("")
      else if body[gt] != '>' || TrimSpace(body[..gt]) == "" then Bad(r)
      else QwenParams(x, literal, body[gt + 1..], calls, TrimSpace(body[..gt]), [])
  }

  function QwenParams(x: XmlSyntax, literal: string -> bool, r: string, calls: seq<Call>, name: string,
          ps: seq<Param>): (s: Scan)
    ensures s.Closed? ==> |s.rest| <= |r|
    ensures s.Bad? ==> |s.at| <= |r|
    decreases |r|, 1
  {
    var t := SkipSpace(r);
    if x.fnEnd <= t then QwenFnEnd(x, literal, t[|x.fnEnd|..], calls, name, ps)
    else if !(x.paramStart <= t) then Bad(if Partial(t, x.paramStart) || Partial(t, x.fnEnd) then "" else r)
    else
      var body := t[|x.paramStart|..];
      var gt := IndexAngle(body);
      if gt < 0 then Bad("")
      else if body[gt] != '>' || TrimSpace(body[..gt]) == "" then Bad(r)
      else QwenValue(x, literal, body[gt + 1..], calls, name, ps, TrimSpace(body[..gt]))
  }

  function QwenValue(x: XmlSyntax, literal: string -> bool, r: string, calls: seq<Call>, name: string,
          ps: seq<Param>, key: string): (s: Scan)
    ensures s.Closed? ==> |s.rest| <= |r|
    ensures s.Bad? ==> |s.at| <= |r|
    decreases |r|, 0
  {
    var end := Index(r, x.paramEnd);
    if end < 0 then Bad("")
    else QwenParams(x, literal, r[end + |x.paramEnd|..], calls, name, ps + [QwenParam(x, literal, key, r[..end])])
  }

  function QwenFnEnd(x: XmlSyntax, literal: string -> bool, r: string, calls: seq<Call>, name: string,
          ps: seq<Param>): (s: Scan)
    ensures s.Closed? ==> |s.rest| <= |r|
    ensures s.Bad? ==> |s.at| <= |r|
    decreases |r|, 4
  {
    var t := SkipSpace(r);
    if x.callEnd <= t then QwenAfter(x, literal, t[|x.callEnd|..], calls + [Call(name, ps)])
    else Bad(if Partial(t, x.callEnd) then "" else r)
  }

  function QwenAfter(x: XmlSyntax, literal: string -> bool, r: string, calls: seq<Call>): (s: Scan)
    ensures s.Closed? ==> |s.rest| <= |r|
    ensures s.Bad? ==> |s.at| <= |r|
    decreases |r|, 3
  {
    var t := SkipSpace(r);
    if x.callStart <= t then QwenFn(x, literal, t[|x.callStart|..], calls) else Closed(calls, r)
  }

  // ----- whole contents -----

  /** How a text is read: the dialect, its tags, and the outside functions. */
  datatype Reader = Reader(dialect: Dialect, table: seq<Syntax>, xml: XmlSyntax, json: Json,
                           qwenLiteral: string -> bool)

  /** The reader of a dialect. */
  function ReaderOf(dialect: Dialect, json: Json, qwenLiteral: string -> bool): Reader {
    Reader(dialect, Table(dialect), XmlForms(), json, qwenLiteral)
  }

  datatype Marker = NoMarker | Stop | Opens(syn: Syntax, implicit: bool) | OpensXml

  function ToolStartAt(table: seq<Syntax>, s: string): Marker {
    if table == [] then NoMarker
    else if table[0].toolStart <= s then Opens(table[0], false)
    else ToolStartAt(table[1..], s)
  }

  function InvokeAt(table: seq<Syntax>, s: string): Marker {
    if table == [] then NoMarker
    else if OpensTag(s, table[0].invokeStart) then Opens(table[0], true)
    else InvokeAt(table[1..], s)
  }

  /** The block opener at the front of `s`: a wrapper, or a bare invoke. */
  function OpenAt(table: seq<Syntax>, s: string): Marker {
    var m := ToolStartAt(table, s);
    if m != NoMarker then m else InvokeAt(table, s)
  }

  /** What, if anything, begins at the front of `s` that ends plain content. */
  function MarkerAt(d: Reader, s: string): Marker {
    if EOS <= s then Stop
    else if IsXml(d.dialect) then (if d.xml.callStart <= s then OpensXml else NoMarker)
    else OpenAt(d.table, s)
  }

  /** Where the first marker begins, or the length of the text. */
  function NextMarker(d: Reader, s: string): (n: nat)
    ensures n <= |s|
  {
    if s == [] || MarkerAt(d, s) != NoMarker then 0 else 1 + NextMarker(d, s[1..])
  }

  function UpToEos(s: string): (r: string)
    ensures r <= s
  {
    var i := Index(s, EOS);
    if i < 0 then s else s[..i]
  }

  /** The content of a text and the calls it makes, if any. */
  datatype Verdict = Verdict(content: string, calls: Option<seq<Call>>)

  /** `whole` with everything from an end-of-sentence token in its tail `at` dropped. */
  function CutAfter(whole: string, at: string): string {
    if |at| <= |whole| then whole[..|whole| - |at|] + UpToEos(at) else whole
  }

  /** The verdict when a block was opened after `before` and scanned to `scan`. */
  function Judge(d: Reader, whole: string, before: string, implicit: bool, scan: Scan): Verdict {
    match scan
    case Bad(at) => Verdict(CutAfter(whole, at), None)
    case Closed(calls, rest) => JudgeEnd(d, whole, before, implicit, calls, rest, SkipSpace(rest))
  }

  /** A closed block is accepted when nothing but white space and the end of the sentence follows;
      an implicit one only when the end-of-sentence token does. */
  function JudgeEnd(d: Reader, whole: string, before: string, implicit: bool, calls: seq<Call>, rest: string,
          t: string): Verdict {
    if EOS <= t then Verdict(before, Some(calls))
    else if IsXml(d.dialect) then
      if t == "" then Verdict(before + rest, Some(calls)) else Verdict(CutAfter(whole, rest), None)
    else
      if t == "" && !implicit then Verdict(before, Some(calls)) else Verdict(CutAfter(whole, t), None)
  }

  function ScanXml(d: Reader, r: string): (s: Scan)
    ensures s.Closed? ==> |s.rest| <= |r|
    ensures s.Bad? ==> |s.at| <= |r|
  {
    if d.dialect == Glm then GlmName(d.xml, r, []) else QwenFn(d.xml, d.qwenLiteral, r, [])
  }

  /** What the stream decoder makes of a complete content. */
  function Decide(d: Reader, s: string): Verdict {
    DecideAt(d, s, NextMarker(d, s))
  }

  /** The verdict when the first marker begins at `n`. */
  function DecideAt(d: Reader, s: string, n: nat): Verdict
    requires n <= |s|
  {
    if n == |s| then Verdict(s, None)
    else match MarkerAt(d, s[n..])
      case NoMarker => Verdict(s, None)
      case Stop => Verdict(s[..n], None)
      case Opens(syn, implicit) => Judge(d, s, s[..n], implicit, ScanOpened(d, syn, implicit, s[n..]))
      case OpensXml => Judge(d, s, s[..n], false, ScanXml(d, DropPrefix(s[n..], d.xml.callStart)))
  }

  /** The scan of a block whose first tag begins `r`. */
  function ScanOpened(d: Reader, syn: Syntax, implicit: bool, r: string): (s: Scan)
    ensures s.Closed? ==> |s.rest| <= |r|
    ensures s.Bad? ==> |s.at| <= |r|
  {
    ScanBlock(Block(syn, implicit, d.json, true), if implicit then r else DropPrefix(r, syn.toolStart), [])
  }

  function DropPrefix(s: string, p: string): (r: string)
    ensures |r| <= |s|
  {
    if |p| <= |s| then s[|p|..] else ""
  }
}
