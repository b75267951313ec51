/** Whole completions (dsml/decode.go, dsml/tooltext.go): the split at the reasoning, and the message
    the batch reader returns. */
module Completion {
  import opened Text
  import opened ToolText
  import opened Markup
  import opened Calls
  import opened Grammar
  import opened Phases
  import opened Transitions
  import opened Decode

  // ----- structural text -----

  /** The openers and closers of argument bodies, whose contents are data (`structuralWrappers`). */
  function Wrappers(d: Reader): seq<(string, string)> {
    ParamWrappers(V4()) + ParamWrappers(V41()) +
    [(d.xml.keyStart, d.xml.keyEnd), (d.xml.valueStart, d.xml.valueEnd), (d.xml.paramStart, d.xml.paramEnd)]
  }

  function ParamWrappers(table: seq<Syntax>): seq<(string, string)> {
    if table == [] then [] else [(table[0].paramStart, table[0].paramEnd)] + ParamWrappers(table[1..])
  }

  /** The first wrapper whose opener begins `s`. */
  function WrapperAt(ws: seq<(string, string)>, s: string): (w: Option<(string, string)>)
    ensures w.Some? ==> w.value in ws && w.value.0 <= s
  {
    if ws == [] then None else if ws[0].0 <= s then Some(ws[0]) else WrapperAt(ws[1..], s)
  }

  /** How far the scan moves at the front of `s`: one byte, past a whole wrapper, or nowhere further. */
  function Stride(ws: seq<(string, string)>, s: string): (n: Option<nat>)
    requires s != ""
    ensures n.Some? ==> 0 < n.value <= |s|
  {
    match WrapperAt(ws, s)
    case None => Some(1)
    case Some(w) =>
      var gt := Index(s, ">");
      if gt < 0 then None
      else
        var end := Index(s[gt + 1..], w.1);
        if end < 0 then None else Some(gt + 1 + end + |w.1|)
  }

  /** `lastStructuralIndex`: the last occurrence of `needle` outside every argument body, or -1. */
  function LastStructural(ws: seq<(string, string)>, s: string, needle: string): (r: int)
    ensures -1 <= r <= |s|
    ensures r >= 0 ==> needle <= s[r..]
    decreases |s|
  {
    if s == "" then -1
    else
      var here := if needle <= s then 0 else -1;
      match Stride(ws, s)
      case None => here
      case Some(n) =>
        var r := LastStructural(ws, s[n..], needle);
        if r >= 0 then n + r else here
  }

  method LastStructuralIndex(ws: seq<(string, string)>, text: string, needle: string) returns (found: int)
    ensures found == LastStructural(ws, text, needle)
  {
    hide WrapperAt, Index, LastStructural;
    found := -1;
    NothingStructural(ws, text, needle);
    var i := 0;
    while i < |text|
      invariant 0 <= i <= |text|
      invariant LastStructural(ws, text, needle) ==
                var r := LastStructural(ws, text[i..], needle); if r >= 0 then i + r else found
    {
      var rest := text[i..];
      StructuralStep(ws, text, i, needle);
      if needle <= rest {
        found := i;
      }
      var w := WrapperAt(ws, rest);
      if w.Some? {
        var tagEnd := Index(rest, ">");
        if tagEnd < 0 {
          return;
        }
        var end := Index(rest[tagEnd + 1..], w.value.1);
        if end < 0 {
          return;
        }
        i := i + tagEnd + 1 + end + |w.value.1|;
      } else {
        i := i + 1;
      }
    }
  }

  lemma NothingStructural(ws: seq<(string, string)>, text: string, needle: string)
    ensures text[0..] == text && text[|text|..] == "" && LastStructural(ws, "", needle) == -1
  {}

  lemma StructuralStep(ws: seq<(string, string)>, text: string, i: nat, needle: string)
    requires i < |text|
    ensures var s := text[i..];
            var here := if needle <= s then 0 else -1;
            LastStructural(ws, s, needle) ==
            match Stride(ws, s)
            case None => here
            case Some(n) => var r := LastStructural(ws, text[i + n..], needle); if r >= 0 then n + r else here
  {
    hide WrapperAt, Index;
    if Stride(ws, text[i..]).Some? {
      TagAtIndex(text, i, Stride(ws, text[i..]).value);
    }
  }

  // ----- messages -----

  datatype Reason = StrayMarker | MalformedBlock | TextAfterBlock

  datatype Parsed = Parsed(content: string, reasoning: string, calls: seq<ToolCall>, malformed: Option<Reason>)

  /** `contentHasStrayMarker`. */
  predicate HasStrayMarker(content: string) {
    || Contains(content, "<" + MARKER) || Contains(content, "</" + MARKER)
    || Contains(content, "<" + MARKER_SHORT) || Contains(content, "</" + MARKER_SHORT)
  }

  /** `rawCompletionMessage`, for the text after the reasoning. */
  function Degraded(t: string, reason: Reason): Parsed {
    Parsed(TrimSpace(UpToEos(t)), "", [], Some(reason))
  }

  function PlainMessage(d: Reader, t: string, content: string): Parsed {
    if !IsXml(d.dialect) && HasStrayMarker(TrimSpace(content)) then Degraded(t, StrayMarker)
    else Parsed(TrimSpace(content), "", [], None)
  }

  /** The message of a block whose content ends at `cut`. */
  function BlockMessage(d: Reader, t: string, cut: nat, exact: bool, scan: Scan): Parsed
    requires cut <= |t| && (scan.Closed? ==> |scan.rest| <= |t| - cut)
  {
    match scan
    case Bad(_) => Degraded(t, MalformedBlock)
    case Closed(calls, rest) =>
      if TrimSpace(UpToEos(rest)) != "" then Degraded(t, TextAfterBlock)
      else Parsed(TrimSpace(t[..cut]), "", AllReturned(d.json, calls, if exact then t[cut..|t| - |rest|] else ""), None)
  }

  /** The message of the text after the reasoning. */
  function ParseContent(d: Reader, t: string): Parsed {
    var n := NextMarker(d, t);
    if n == |t| then PlainMessage(d, t, t)
    else match MarkerAt(d, t[n..])
      case NoMarker => PlainMessage(d, t, t)
      case Stop => PlainMessage(d, t, t[..n])
      case Opens(syn, implicit) => BlockMessage(d, t, RawStart(t, n), !implicit, BatchScan(d, syn, implicit, t[n..]))
      case OpensXml => BlockMessage(d, t, n, false, ScanXml(d, DropPrefix(t[n..], d.xml.callStart)))
  }

  function TrimPrefix(s: string, p: string): string {
    if p <= s then s[|p|..] else s
  }

  function ReasoningText(s: string): string {
    TrimSpace(TrimPrefix(s, THINK_START))
  }

  /** `ParseCompletionSyntax`, on text whose markers are already normalised. */
  function ParseCompletion(d: Reader, text: string, thinking: bool): Parsed {
    if !thinking then ParseContent(d, text)
    else
      var end := LastStructural(Wrappers(d), text, THINK_END);
      if end < 0 then Parsed("", ReasoningText(text), [], None)
      else ParseContent(d, text[end + |THINK_END|..]).(reasoning := ReasoningText(text[..end]))
  }
}
