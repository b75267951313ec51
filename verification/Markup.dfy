/** Tags, attributes, argument lists and events shared by every reader and writer of tool calls. */
module Markup {
  import opened Text
  import opened ToolText

  // U+FF5C and U+2581 in UTF-8
  const BAR := "\U{EF}\U{BD}\U{9C}"
  const LOW := "\U{E2}\U{96}\U{81}"

  const EOS := "<" + BAR + "end" + LOW + "of" + LOW + "sentence" + BAR + ">"
  const THINK_START := "<think>"
  const THINK_END := "</think>"
  const MARKER := BAR + "DSML" + BAR
  const MARKER_SHORT := "DSML" + BAR

  /** The six tags of one spelling of the block grammar (`dsmlSyntax`). */
  datatype TagSet = Tags(toolStart: string, toolEnd: string, invokeStart: string,
                         invokeEnd: string, paramStart: string, paramEnd: string)

  /** Characters that may follow the `<` or `</` of a tag. */
  predicate IsName(w: string) {
    forall i :: 0 <= i < |w| ==> w[i] != '<' && w[i] != '&' && w[i] != '\n'
  }

  /** An opening tag or tag prefix: one `<`, in front, and no line break inside. */
  predicate IsOpener(t: string) {
    1 < |t| < 60 && t[0] == '<' && IsName(t[1..])
  }

  /** No text begins both with `t` and with the end-of-sentence token. */
  predicate UnlikeEos(t: string) {
    4 < |t| && (t[1] != EOS[1] || t[4] != EOS[4])
  }

  /** Two tags that differ at a position both have: no text begins with both. */
  predicate Apart(t: string, u: string) {
    exists k :: 0 <= k < |t| && k < |u| && t[k] != u[k]
  }

  lemma ApartAt(t: string, u: string, k: nat)
    requires k < |t| && k < |u| && t[k] != u[k]
    ensures Apart(t, u)
  {}

  predicate WellFormed(t: TagSet) {
    && IsOpener(t.toolStart) && IsOpener(t.invokeStart) && IsOpener(t.paramStart)
    && UnlikeEos(t.toolStart) && UnlikeEos(t.invokeStart) && UnlikeEos(t.paramStart)
    && UnlikeEos(t.toolEnd) && UnlikeEos(t.invokeEnd)
    && IsCloseTag(t.toolEnd) && IsCloseTag(t.invokeEnd) && IsCloseTag(t.paramEnd)
    && Apart(t.invokeStart, t.toolEnd) && Apart(t.paramStart, t.invokeEnd)
  }

  type Syntax = t: TagSet | WellFormed(t) witness PlainTags()

  /** The plain XML spelling. */
  function PlainTags(): (t: TagSet)
    ensures WellFormed(t)
  {
    NamedTagsAreTags("", "tool_calls");
    TagsNamed("", "tool_calls")
  }

  /** The tags whose names carry `marker` in front. */
  function TagsNamed(marker: string, block: string): (t: TagSet) {
    Tags("<" + marker + block + ">", "</" + marker + block + ">",
         "<" + marker + "invoke", "</" + marker + "invoke>",
         "<" + marker + "parameter", "</" + marker + "parameter>")
  }

  /** Every spelling the tables below use is well formed. */
  lemma NamedTagsAreTags(marker: string, block: string)
    requires IsName(marker) && IsName(block) && |marker| < 20 && 1 <= |block| < 20
    requires (marker + block)[0] != EOS[1] || (|marker| > 3 && marker[3] != EOS[4])
    requires (marker + "i")[0] != EOS[1] || (|marker| > 3 && marker[3] != EOS[4])
    requires (marker + "p")[0] != EOS[1] || (|marker| > 3 && marker[3] != EOS[4])
    requires |marker + block| > 3 && (marker + "i")[0] != '/'
    ensures WellFormed(TagsNamed(marker, block))
  {
    hide IsOpener, IsCloseTag, UnlikeEos, Apart;
    var t := TagsNamed(marker, block);
    assert (marker + (block + ">"))[0] == (marker + block)[0] && (marker + "invoke")[0] == (marker + "i")[0] &&
           (marker + "parameter")[0] == (marker + "p")[0];
    OpenerNamed(marker, block + ">");
    OpenerNamed(marker, "invoke");
    OpenerNamed(marker, "parameter");
    CloserNamed(marker, block);
    CloserNamed(marker, "invoke");
    CloserNamed(marker, "parameter");
    assert t.toolStart == "<" + (marker + (block + ">"));
    assert t.invokeStart == "<" + (marker + "invoke");
    assert t.paramStart == "<" + (marker + "parameter");
    assert t.invokeEnd == "</" + marker + "invoke" + ">" && t.paramEnd == "</" + marker + "parameter" + ">";
    ApartAt(t.invokeStart, t.toolEnd, 1);
    ApartAt(t.paramStart, t.invokeEnd, 1);
  }

  lemma OpenerNamed(marker: string, name: string)
    requires IsName(marker) && IsName(name) && 1 <= |name| <= 20 && |marker| < 20
    ensures IsOpener("<" + (marker + name))
    ensures |marker + name| > 3 && ((marker + name)[0] != EOS[1] || (|marker| > 3 && marker[3] != EOS[4])) ==>
              UnlikeEos("<" + (marker + name))
  {
    assert ("<" + (marker + name))[1..] == marker + name;
  }

  lemma CloserNamed(marker: string, name: string)
    requires IsName(marker) && IsName(name)
    ensures IsCloseTag("</" + marker + name + ">")
    ensures |marker + name| > 1 ==> UnlikeEos("</" + marker + name + ">")
  {
    var t := "</" + marker + name + ">";
    assert t == "<" + ("/" + marker + name + ">");
    assert t[1..] == "/" + marker + name + ">";
  }

  function FullTags(sep: string, block: string): (t: TagSet)
    requires (sep == "" && block == "tool_calls") || (sep == " " && block == "calls")
    ensures WellFormed(t)
  {
    NamedTagsAreTags(MARKER + sep, block);
    TagsNamed(MARKER + sep, block)
  }

  function ShortTags(sep: string, block: string): (t: TagSet)
    requires (sep == "" && block == "tool_calls") || (sep == " " && block == "calls")
    ensures WellFormed(t)
  {
    NamedTagsAreTags(MARKER_SHORT + sep, block);
    TagsNamed(MARKER_SHORT + sep, block)
  }

  /** DeepSeek V4's tags, their missing-bar near miss and plain XML (`dsmlSyntaxes`). */
  function V4(): (table: seq<Syntax>)
    ensures |table| == 3
  {
    hide WellFormed;
    [FullTags("", "tool_calls"), ShortTags("", "tool_calls"), PlainTags()]
  }

  /** DeepSeek V4.1's spaced tags and their near miss (`dsml41Syntaxes`). */
  function V41(): (table: seq<Syntax>)
    ensures |table| == 2
  {
    hide WellFormed;
    [FullTags(" ", "calls"), ShortTags(" ", "calls")]
  }

  datatype Dialect = Dsml | Dsml41 | Glm | Qwen

  /** `isXMLToolSyntax`: the dialects that open a call with a bare `<tool_call>`. */
  predicate IsXml(d: Dialect) {
    d == Glm || d == Qwen
  }

  /** `syntaxTable`. */
  function Table(d: Dialect): (table: seq<Syntax>)
    ensures table != []
  {
    if d == Dsml41 then V41() else V4()
  }

  /** No spelling of the grammar can be mistaken for another. */
  predicate Unambiguous(table: seq<Syntax>) {
    forall i, j :: 0 <= i < |table| && 0 <= j < |table| ==>
      && Apart(table[i].toolStart, table[j].invokeStart)
      && (table[i] == table[j] ||
         (Apart(table[i].toolStart, table[j].toolStart) && Apart(table[i].invokeStart, table[j].invokeStart)))
  }

  lemma TablesAreUnambiguous(d: Dialect)
    ensures Unambiguous(Table(d))
  {
    var table := Table(d);
    forall i, j | 0 <= i < |table| && 0 <= j < |table|
      ensures Apart(table[i].toolStart, table[j].invokeStart)
      ensures table[i] == table[j] ||
              (Apart(table[i].toolStart, table[j].toolStart) && Apart(table[i].invokeStart, table[j].invokeStart))
    {
      TagsApart(d, i, j);
    }
  }

  lemma TagsApart(d: Dialect, i: nat, j: nat)
    requires i < |Table(d)| && j < |Table(d)|
    ensures var t, u := Table(d)[i], Table(d)[j];
            && Apart(t.toolStart, u.invokeStart)
            && (i == j || (Apart(t.toolStart, u.toolStart) && Apart(t.invokeStart, u.invokeStart)))
  {
    hide WellFormed;
    if i == j {
      if i == 2 {
        OwnTagsApart("", "tool_calls");
      } else if d == Dsml41 {
        OwnTagsApart(if i == 0 then MARKER + " " else MARKER_SHORT + " ", "calls");
      } else {
        OwnTagsApart(if i == 0 then MARKER + "" else MARKER_SHORT + "", "tool_calls");
      }
    } else {
      FirstBytes(d, i);
      FirstBytes(d, j);
      assert Apart((Table(d)[i]).toolStart, (Table(d)[j]).invokeStart) &&
             Apart((Table(d)[i]).toolStart, (Table(d)[j]).toolStart) &&
                 Apart((Table(d)[i]).invokeStart, (Table(d)[j]).invokeStart);
    }
  }

  lemma OwnTagsApart(marker: string, block: string)
    requires block != "" && block[0] != 'i'
    ensures var t := TagsNamed(marker, block); Apart(t.toolStart, t.invokeStart)
  {
    var t := TagsNamed(marker, block);
    var k := 1 + |marker|;
    assert t.toolStart[k] == block[0] && t.invokeStart[k] == 'i';
  }

  /** The byte after the `<` tells the spellings of a dialect apart. */
  lemma FirstBytes(d: Dialect, i: nat)
    requires i < |Table(d)|
    ensures var t := Table(d)[i];
            && |t.toolStart| > 1 && |t.invokeStart| > 1
            && t.toolStart[1] == (if i == 0 then BAR[0] else if i == 1 then 'D' else 't')
            && t.invokeStart[1] == (if i == 0 then BAR[0] else if i == 1 then 'D' else 'i')
  {
    hide WellFormed;
  }

  /** The tags of the GLM and Qwen dialects. */
  datatype XmlTagSet = XmlTags(callStart: string, callEnd: string, keyStart: string, keyEnd: string,
                               valueStart: string, valueEnd: string, fnStart: string, fnEnd: string,
                               paramStart: string, paramEnd: string)

  predicate XmlWellFormed(x: XmlTagSet) {
    && IsOpener(x.callStart) && IsOpener(x.keyStart) && IsOpener(x.valueStart) && IsOpener(x.fnStart) &&
       IsOpener(x.paramStart)
    && UnlikeEos(x.callStart) && Apart(x.keyStart, x.callEnd) && Apart(x.paramStart, x.fnEnd)
    && IsCloseTag(x.callEnd) && IsCloseTag(x.keyEnd) && IsCloseTag(x.valueEnd) && IsCloseTag(x.fnEnd) &&
       IsCloseTag(x.paramEnd)
  }

  type XmlSyntax = x: XmlTagSet | XmlWellFormed(x) witness XmlForms()

  function XmlForms(): (x: XmlTagSet)
    ensures XmlWellFormed(x)
  {
    XmlTag("tool_call", ">");
    XmlTag("arg_key", ">");
    XmlTag("arg_value", ">");
    XmlTag("function", "=");
    XmlTag("parameter", "=");
    var x := XmlTags("<" + "tool_call" + ">", "</" + "tool_call" + ">", "<" + "arg_key" + ">", "</" + "arg_key" + ">",
                     "<" + "arg_value" + ">", "</" + "arg_value" + ">", "<" + "function" + "=", "</" + "function" + ">",
                     "<" + "parameter" + "=", "</" + "parameter" + ">");
    ApartAt(x.keyStart, x.callEnd, 1);
    ApartAt(x.paramStart, x.fnEnd, 1);
    x
  }

  lemma XmlTag(name: string, last: string)
    requires IsName(name) && IsName(last) && 4 <= |name| < 20 && |last| == 1 && name[0] != EOS[1]
    ensures IsOpener("<" + name + last) && UnlikeEos("<" + name + last)
    ensures IsCloseTag("</" + name + ">")
  {
    assert ("<" + name + last)[1..] == name + last;
    CloserNamed("", name);
    assert "" + name == name;
    assert "</" + "" + name + ">" == "</" + name + ">";
  }

  lemma TagsNonEmpty(t: Syntax)
    ensures 0 < |t.toolStart| && 0 < |t.toolEnd| && 0 < |t.invokeEnd| && 0 < |t.paramEnd|
  {}

  lemma SyntaxOpens(syn: Syntax)
    ensures IsOpener(syn.toolStart) && IsOpener(syn.invokeStart) && IsOpener(syn.paramStart)
    ensures UnlikeEos(syn.toolStart) && UnlikeEos(syn.invokeStart) && UnlikeEos(syn.paramStart)
  {}

  lemma CloseTags(t: Syntax)
    ensures IsCloseTag(t.toolEnd) && IsCloseTag(t.invokeEnd) && IsCloseTag(t.paramEnd)
  {}

  lemma XmlOpens(x: XmlSyntax)
    ensures IsOpener(x.callStart) && IsOpener(x.keyStart) && IsOpener(x.valueStart) && IsOpener(x.fnStart) &&
            IsOpener(x.paramStart) && Apart(x.paramStart, x.fnEnd)
    ensures UnlikeEos(x.callStart)
  {}

  lemma XmlCloseTags(x: XmlSyntax)
    ensures IsCloseTag(x.callEnd) && IsCloseTag(x.keyEnd) && IsCloseTag(x.valueEnd) && IsCloseTag(x.fnEnd) &&
            IsCloseTag(x.paramEnd)
  {}

  lemma XmlTagsNonEmpty(x: XmlSyntax)
    ensures 0 < |x.callStart| && 0 < |x.callEnd| && 0 < |x.valueStart| && 0 < |x.valueEnd| && 0 < |x.fnEnd| &&
            0 < |x.paramEnd|
  {}

  // ----- attributes -----

  /** The attribute entity at the front of `s`, or its first character. */
  function EntityAt(s: string): (r: (char, nat))
    requires s != []
    ensures 0 < r.1 <= |s|
  {
    if "&amp;" <= s then ('&', 5)
    else if "&lt;" <= s then ('<', 4)
    else if "&gt;" <= s then ('>', 4)
    else if "&quot;" <= s then ('\"', 6)
    else if "&apos;" <= s then ('\'', 6)
    else (s[0], 1)
  }

  /** `dsmlUnescapeText`. */
  function AttrUnescape(s: string): string {
    if s == [] then "" else var r := EntityAt(s); [r.0] + AttrUnescape(s[r.1..])
  }

  /** `dsmlAttr`: the unescaped text between the quotes after the first `name="`. */
  function Attr(tag: string, name: string): Option<string> {
    var pat := name + "=\"";
    var pos := Index(tag, pat);
    if pos < 0 then None
    else
      var rest := tag[pos + |pat|..];
      var end := Index(rest, "\"");
      if end < 0 then None else Some(AttrUnescape(rest[..end]))
  }
}
