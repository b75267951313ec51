/** Written arguments are valid JSON under RFC 8259, and read as the object that was meant: what the round trips ask of
    a JSON library (dsml/encode.go:148-236) is met by that grammar and the string writer of the canonical form. */
module JsonWriting {
  import opened Text
  import opened ToolText
  import opened Markup
  import opened Calls
  import opened Grammar
  import opened Encode
  import opened RoundTrip
  import opened JsonText
  import opened CanonicalText
  import opened JsonEscapes
  import opened JsonValues
  import C = Canonical

  /** A literal with its close tags spelled with a JSON escape is the literal respelled. */
  lemma {:induction false} LiteralRespells(s: string, end: string)
    requires end != "" && end[0] == '<'
    ensures Respells(EscapeLiteral(s, end), s, "")
    decreases |s|
  {
    if end <= s {
      var rest := s[|end|..];
      LiteralRespells(rest, end);
      assert Respells(ESCAPED_ANGLE + end[1..], end, "") by {
        RespellsSelf(end[1..], "");
        assert end[1..] + "" == end[1..];
        assert (LESS + end[1..])[|LESS|..] == end[1..];
      }
      RespellsConcat(ESCAPED_ANGLE + end[1..], end, EscapeLiteral(rest, end), rest, "");
      assert s == end + rest;
    } else if s != "" {
      LiteralRespells(s[1..], end);
    }
  }

  /** So it means the same. */
  lemma LiteralMeans(s: string, end: string)
    requires end != "" && end[0] == '<' && ReadText(s).Some?
    ensures ReadText(EscapeLiteral(s, end)) == ReadText(s)
  {
    hide EscapeLiteral, Respells, ReadValue, SkipWs;
    LiteralRespells(s, end);
    TextSame(EscapeLiteral(s, end), s, "");
  }

  lemma {:induction false} EntriesFront(json: Json, a: Args)
    requires |a| > 1
    ensures Entries(json, a) == Entry(json, a[0]) + ", " + Entries(json, a[1..])
  {
    hide Entry;
    var n := |a| - 1;
    assert a[1..][..n - 1] == a[..n][1..];
    if n > 1 {
      EntriesFront(json, a[..n]);
    }
  }

  /** What is behind a member of the object. */
  function MoreMembers(json: Json, a: Args): string {
    if a == [] then "}" else ", " + Entries(json, a) + "}"
  }

  /** The value of a text. */
  function ValueOf(s: string): C.Tree {
    match ReadText(s)
    case Some(v) => v
    case None => C.Null
  }

  /** The members an object of fragments has. */
  function MembersOf(a: Args): C.Members {
    if a == [] then C.NoMembers else C.Member(a[0].0, ValueOf(a[0].1), MembersOf(a[1..]))
  }

  lemma ValueReads(v: string, m: string)
    requires ReadText(v).Some? && Follows(m) && m != ""
    ensures var r := ReadValue(" " + (v + m)); r.Got? && r.value == ValueOf(v) && SkipWs(r.rest) == m
  {
    hide ReadChars, ReadItems, ReadMembers, NumberLen, Respells;
    RespellsSelf(v, m);
    TextSame(v + m, v, m);
    assert (" " + (v + m))[1..] == v + m;
  }

  /** The text of an object's members, the first of them taken apart. */
  lemma MemberText(json: Json, a: Args, first: bool)
    requires json == StandardJson(C.Literal) && a != []
    ensures var s := (if first then "" else ", ") + Entries(json, a) + "}";
            && s != "" && s[0] == (if first then '"' else ',')
            && (if first then s else s[1..]) ==
               (if first then "" else " ") + (C.Literal(a[0].0) + ": " + (a[0].1 + MoreMembers(json, a[1..])))
  {
    hide C.Literal, ReadText, Entries;
    var lit := C.Literal(a[0].0);
    LiteralOpens(a[0].0);
    if |a| > 1 {
      EntriesFront(json, a);
    } else {
      OneEntry(json, a);
    }
    Grouped(lit, a[0].1, Entries(json, a[1..]), first);
  }

  lemma OneEntry(json: Json, a: Args)
    requires |a| == 1
    ensures Entries(json, a) == Entry(json, a[0])
  {}

  lemma Grouped(lit: string, v: string, e: string, first: bool)
    requires lit != ""
    ensures var s := (if first then "" else ", ") + (lit + ": " + v + ", " + e) + "}";
            && s[0] == (if first then lit[0] else ',')
            && (if first then s else s[1..]) == (if first then "" else " ") + (lit + ": " + (v + (", " + e + "}")))
    ensures var s := (if first then "" else ", ") + (lit + ": " + v) + "}";
            && s[0] == (if first then lit[0] else ',')
            && (if first then s else s[1..]) == (if first then "" else " ") + (lit + ": " + (v + "}"))
  {}

  lemma {:induction false} MembersRead(json: Json, a: Args, first: bool)
    requires json == StandardJson(C.Literal) && a != [] && AllFragments(s => ReadText(s).Some?, a)
    ensures ReadMembers((if first then "" else ", ") + Entries(json, a) + "}", first) == Got(MembersOf(a), "")
    decreases |a|
  {
    hide ReadKey, ReadValue, ReadText, C.Literal, ReadMembers, Entries, SkipWs, ValueOf;
    var key, v, m := a[0].0, a[0].1, MoreMembers(json, a[1..]);
    if |a| > 1 {
      MembersRead(json, a[1..], false);
    } else {
      EmptyObject();
    }
    var s := (if first then "" else ", ") + Entries(json, a) + "}";
    MemberText(json, a, first);
    KeyReads(key, v + m, if first then "" else " ");
    ValueReads(v, m);
    MemberStep(s, if first then s else s[1..], first);
    SkipsAlike(ReadValue(" " + (v + m)).rest, m);
  }

  lemma EmptyObject()
    ensures ReadMembers("}", false) == Got(C.NoMembers, "") && ReadMembers("}", true) == Got(C.NoMembers, "")
  {}

  lemma SkipsAlike(r: string, m: string)
    requires SkipWs(r) == m && Follows(m) && m != ""
    ensures ReadMembers(r, false) == ReadMembers(m, false)
  {
    hide ReadKey, ReadValue;
  }

  lemma NoSpaceInFront(s: string)
    requires s != "" && (s[0] == '"' || s[0] == ',')
    ensures SkipWs(s) == s
  {}

  lemma MemberStep(s: string, y: string, first: bool)
    requires s != "" && s[0] == (if first then '"' else ',') && y == if first then s else s[1..]
    requires ReadKey(y).Got? && ReadValue(ReadKey(y).rest).Got?
    ensures var tail := ReadMembers(ReadValue(ReadKey(y).rest).rest, false);
            tail.Got? ==>
              ReadMembers(s, first) ==
              Got(C.Member(ReadKey(y).value, ReadValue(ReadKey(y).rest).value, tail.value), tail.rest)
  {
    hide ReadKey, ReadValue, SkipWs;
    NoSpaceInFront(s);
  }

  lemma ObjectReads(json: Json, a: Args)
    requires json == StandardJson(C.Literal) && AllFragments(s => ReadText(s).Some?, a)
    ensures ReadText(BuildJson(json, a)) == Some(C.Object(MembersOf(a)))
  {
    hide ReadKey, ReadMembers, C.Literal, Entries, ValueOf;
    var s := BuildJson(json, a);
    if a == [] {
      EmptyObject();
      assert Entries(json, a) == "" by {
        NoEntries(json);
      }
      assert s[1..] == "}";
    } else {
      MembersRead(json, a, true);
      assert s[1..] == "" + Entries(json, a) + "}";
    }
  }

  lemma NoEntries(json: Json)
    ensures Entries(json, []) == ""
  {}

  lemma LiteralOpens(s: string)
    ensures C.Literal(s) != "" && C.Literal(s)[0] == '"'
  {
    hide C.EscapedAll;
  }

  lemma LiteralIsText(s: string)
    ensures ReadText(C.Literal(s)) == Some(C.String(s))
  {
    hide ReadChars, C.Literal, ReadItems, ReadMembers, NumberLen;
    var t := C.Literal(s);
    CanonicalText.StringReads(s, "");
    LiteralOpens(s);
    assert t + "" == t;
    NoSpaceInFront(t);
    assert ReadValue(t) == Got(C.String(s), "");
  }

  /** The library's side of the round trips holds for the grammar of RFC 8259 and the string writer of the canonical
      form. */
  lemma JsonWorksIn(end: string)
    requires IsCloseTag(end)
    ensures JsonWorks(StandardJson(C.Literal), s => ReadText(s).Some?, end)
  {
    hide C.Literal, ReadValue, SkipWs, EscapeLiteral, BuildJson, AllFragments;
    var json, fragment := StandardJson(C.Literal), (s: string) => ReadText(s).Some?;
    forall s ensures fragment(json.quote(s)) {
      LiteralIsText(s);
    }
    forall s | fragment(s) ensures fragment(EscapeLiteral(s, end)) {
      LiteralMeans(s, end);
    }
    forall a: Args | AllFragments(fragment, a) ensures json.valid(BuildJson(json, a)) {
      ObjectReads(json, a);
    }
  }

  /** So calls with valid names whose literals are JSON read back, with nothing assumed about a library. */
  lemma ReadableInStandard(b: Block, cs: seq<Request>)
    requires b.json == StandardJson(C.Literal) && !b.live
    requires forall i ::
             0 <= i < |cs| ==> Renderable(cs[i]) && LiteralsAre(s => ReadText(s).Some?, PairsOf(cs[i].input))
    ensures Readable(b, cs)
  {
    hide Readable, Renderable, LiteralsAre, C.Literal, ReadText, JsonWorks, WellFormed;
    CloseTags(b.syn);
    JsonWorksIn(b.syn.paramEnd);
    ReadableWhenJson(b, cs, s => ReadText(s).Some?);
  }
}
