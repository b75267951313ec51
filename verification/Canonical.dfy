/** Canonical JSON (dsml/canonical.go): a decoder's tokens written back in one fixed spelling. */
module Canonical {
  import opened Text

  /** What the JSON decoder hands out, one at a time. */
  datatype Token =
    | OpenObject | CloseObject | OpenList | CloseList
    | StringToken(text: string) | NumberToken(lexeme: string) | BoolToken(flag: bool) | NullToken

  /** A value, members and items in order. */
  datatype Tree =
    | Null
    | Bool(flag: bool)
    | Number(lexeme: string)
    | String(text: string)
    | List(items: Items)
    | Object(members: Members)

  datatype Items = NoItems | Item(head: Tree, tail: Items)

  datatype Members = NoMembers | Member(key: string, value: Tree, tail: Members)

  const MAX_DEPTH := 64

  // ----- the text of a tree -----

  function Hex(n: nat): char
    requires n < 16
  {
    "0123456789abcdef"[n]
  }

  /** One byte of a string literal. */
  function Escaped(c: char): (e: string)
    ensures e != ""
  {
    if c == '"' || c == '\\' then ['\\', c]
    else if c == '\U{08}' then "\\b"
    else if c == '\U{0C}' then "\\f"
    else if c == '\n' then "\\n"
    else if c == '\r' then "\\r"
    else if c == '\t' then "\\t"
    else if c < ' ' then "\\u00" + [Hex(c as int / 16), Hex(c as int % 16)]
    else [c]
  }

  function EscapedAll(s: string): string {
    if s == "" then "" else EscapedAll(s[..|s| - 1]) + Escaped(s[|s| - 1])
  }

  function Literal(s: string): string {
    "\"" + EscapedAll(s) + "\""
  }

  function Printed(v: Tree): string {
    match v
    case Null => "null"
    case Bool(b) => if b then "true" else "false"
    case Number(lexeme) => lexeme
    case String(s) => Literal(s)
    case List(items) => "[" + PrintedItems(items, true) + "]"
    case Object(members) => "{" + PrintedMembers(members, true) + "}"
  }

  function Comma(first: bool): string {
    if first then "" else ", "
  }

  function PrintedItems(items: Items, first: bool): string {
    match items
    case NoItems => ""
    case Item(v, tail) => Comma(first) + Printed(v) + PrintedItems(tail, false)
  }

  function PrintedMembers(members: Members, first: bool): string {
    match members
    case NoMembers => ""
    case Member(key, v, tail) => Comma(first) + Literal(key) + ": " + Printed(v) + PrintedMembers(tail, false)
  }

  // ----- the tokens of a tree, and what is refused -----

  function Tokens(v: Tree): (ts: seq<Token>)
    ensures ts != []
  {
    match v
    case Null => [NullToken]
    case Bool(b) => [BoolToken(b)]
    case Number(lexeme) => [NumberToken(lexeme)]
    case String(s) => [StringToken(s)]
    case List(items) => [OpenList] + ItemTokens(items) + [CloseList]
    case Object(members) => [OpenObject] + MemberTokens(members) + [CloseObject]
  }

  function ItemTokens(items: Items): seq<Token> {
    match items
    case NoItems => []
    case Item(v, tail) => Tokens(v) + ItemTokens(tail)
  }

  function MemberTokens(members: Members): seq<Token> {
    match members
    case NoMembers => []
    case Member(key, v, tail) => [StringToken(key)] + Tokens(v) + MemberTokens(tail)
  }

  function Max(a: nat, b: nat): nat {
    if a > b then a else b
  }

  /** How deep a value nests; a scalar is one deep. */
  function Height(v: Tree): (n: nat)
    ensures n >= 1
  {
    match v
    case List(items) => 1 + ItemsHeight(items)
    case Object(members) => 1 + MembersHeight(members)
    case _ => 1
  }

  function ItemsHeight(items: Items): nat {
    match items
    case NoItems => 0
    case Item(v, tail) => Max(Height(v), ItemsHeight(tail))
  }

  function MembersHeight(members: Members): nat {
    match members
    case NoMembers => 0
    case Member(_, v, tail) => Max(Height(v), MembersHeight(tail))
  }

  /** No number of the tree overflows a float; `finite` stands for the conversion. */
  predicate AllFinite(v: Tree, finite: string -> bool) {
    match v
    case Number(lexeme) => finite(lexeme)
    case List(items) => ItemsFinite(items, finite)
    case Object(members) => MembersFinite(members, finite)
    case _ => true
  }

  predicate ItemsFinite(items: Items, finite: string -> bool) {
    match items
    case NoItems => true
    case Item(v, tail) => AllFinite(v, finite) && ItemsFinite(tail, finite)
  }

  predicate MembersFinite(members: Members, finite: string -> bool) {
    match members
    case NoMembers => true
    case Member(_, v, tail) => AllFinite(v, finite) && MembersFinite(tail, finite)
  }

  // ----- what the writer does with a stream of tokens -----

  /** The text of a value and the tokens behind it. */
  datatype Output = Output(text: string, rest: seq<Token>)

  predicate More(ts: seq<Token>) {
    ts != [] && !ts[0].CloseObject? && !ts[0].CloseList?
  }

  /** `writeCanonicalValue` and `writeCanonicalToken`. */
  function WriteValue(ts: seq<Token>, depth: nat, finite: string -> bool): (o: Option<Output>)
    ensures o.Some? ==> |o.value.rest| < |ts|
    decreases |ts|, 1
  {
    if depth >= MAX_DEPTH || ts == [] then None
    else
      match ts[0]
      case OpenObject => Surrounded("{", WriteMembers(ts[1..], depth, finite, true), "}")
      case OpenList => Surrounded("[", WriteItems(ts[1..], depth, finite, true), "]")
      case StringToken(s) => Some(Output(Literal(s), ts[1..]))
      case NumberToken(lexeme) => if finite(lexeme) then Some(Output(lexeme, ts[1..])) else None
      case BoolToken(b) => Some(Output(if b then "true" else "false", ts[1..]))
      case NullToken => Some(Output("null", ts[1..]))
      case _ => None
  }

  /** A bracket, what is inside, and the other bracket for the token that closes. */
  function Surrounded(open: string, inside: Option<Output>, close: string): (o: Option<Output>)
    ensures o.Some? ==> inside.Some? && |o.value.rest| < |inside.value.rest|
  {
    if inside.Some? && inside.value.rest != [] then
        Some(Output(open + inside.value.text + close, inside.value.rest[1..])) else None
  }

  /** The loop of `writeCanonicalObject`. */
  function WriteMembers(ts: seq<Token>, depth: nat, finite: string -> bool, first: bool): (o: Option<Output>)
    ensures o.Some? ==> |o.value.rest| <= |ts| && !More(o.value.rest)
    decreases |ts|, 0
  {
    if !More(ts) then Some(Output("", ts))
    else if !ts[0].StringToken? then None
    else
      match WriteValue(ts[1..], depth + 1, finite)
      case None => None
      case Some(v) =>
        match WriteMembers(v.rest, depth, finite, false)
        case None => None
        case Some(tail) => Some(Output(Comma(first) + Literal(ts[0].text) + ": " + v.text + tail.text, tail.rest))
  }

  /** The loop of `writeCanonicalArray`. */
  function WriteItems(ts: seq<Token>, depth: nat, finite: string -> bool, first: bool): (o: Option<Output>)
    ensures o.Some? ==> |o.value.rest| <= |ts| && !More(o.value.rest)
    decreases |ts|, 2
  {
    if !More(ts) then Some(Output("", ts))
    else
      match WriteValue(ts, depth + 1, finite)
      case None => None
      case Some(v) =>
        match WriteItems(v.rest, depth, finite, false)
        case None => None
        case Some(tail) => Some(Output(Comma(first) + v.text + tail.text, tail.rest))
  }

  // ----- the writer -----

  /** The builder and what is left of the decoder's tokens. */
  class Writer {
    var out: string
    var tokens: seq<Token>

    constructor (ts: seq<Token>)
      ensures out == "" && tokens == ts
    {
      out, tokens := "", ts;
    }

    /** The tokens of `o` are used up and its text is written. */
    twostate predicate Wrote(o: Option<Output>, ok: bool)
      reads this
    {
      ok == o.Some? && (ok ==> out == old(out) + o.value.text && tokens == o.value.rest)
    }

    /** `writeCanonicalString`. */
    method WriteString(s: string)
      modifies this
      ensures out == old(out) + Literal(s) && tokens == old(tokens)
    {
      assert EscapedAll("") == "";
      hide EscapedAll, Escaped;
      out := out + "\"";
      var i := 0;
      while i < |s|
        invariant 0 <= i <= |s| && tokens == old(tokens)
        invariant out == old(out) + "\"" + EscapedAll(s[..i])
      {
        OneMoreEscaped(old(out) + "\"", s, i);
        out := out + Escaped(s[i]);
        i := i + 1;
      }
      assert s[..i] == s;
      out := out + "\"";
      LiteralIs(old(out), s);
    }

    /** `writeCanonicalValue`. */
    method Value(depth: nat, finite: string -> bool) returns (ok: bool)
      modifies this
      ensures Wrote(WriteValue(old(tokens), depth, finite), ok)
      decreases |tokens|, 2
    {
      if depth >= MAX_DEPTH || tokens == [] {
        return false;
      }
      var token := tokens[0];
      tokens := tokens[1..];
      ok := true;
      match token {
        case OpenObject =>
          ok := ObjectBody(depth, finite);
        case OpenList =>
          ok := ListBody(depth, finite);
        case StringToken(s) =>
          WriteString(s);
        case NumberToken(lexeme) =>
          if finite(lexeme) {
            out := out + lexeme;
          } else {
            ok := false;
          }
        case BoolToken(b) =>
          out := out + if b then "true" else "false";
        case NullToken =>
          out := out + "null";
        case _ =>
          ok := false;
      }
    }

    /** `writeCanonicalObject`, behind the opening brace. */
    method ObjectBody(depth: nat, finite: string -> bool) returns (ok: bool)
      modifies this
      ensures Wrote(Surrounded("{", WriteMembers(old(tokens), depth, finite, true), "}"), ok)
      decreases |tokens|, 1
    {
      hide WriteMembers, WriteValue, Literal, Behind;
      BehindNothing(WriteMembers(tokens, depth, finite, true));
      out := out + "{";
      var first := true;
      ghost var written := "";
      while More(tokens)
        invariant |tokens| <= old(|tokens|) && out == old(out) + "{" + written
        invariant WriteMembers(old(tokens), depth, finite, true) ==
                  Behind(written, WriteMembers(tokens, depth, finite, first))
        decreases |tokens|
      {
        ghost var before, ahead := written, tokens;
        MemberBehind(before, ahead, depth, finite, first);
        if !tokens[0].StringToken? {
          return false;
        }
        var key := tokens[0].text;
        tokens := tokens[1..];
        if !first {
          out := out + ", ";
        }
        WriteString(key);
        out := out + ": ";
        ghost var value := WriteValue(tokens, depth + 1, finite);
        ok := Value(depth + 1, finite);
        if !ok {
          return;
        }
        written := before + (Comma(first) + Literal(key) + ": " + value.value.text);
        first := false;
      }
      MembersEnd(tokens, depth, finite, first);
      BehindEnd(written, tokens);
      if tokens == [] {
        return false;
      }
      tokens := tokens[1..];
      out := out + "}";
      ok := true;
    }

    /** `writeCanonicalArray`, behind the opening bracket. */
    method ListBody(depth: nat, finite: string -> bool) returns (ok: bool)
      modifies this
      ensures Wrote(Surrounded("[", WriteItems(old(tokens), depth, finite, true), "]"), ok)
      decreases |tokens|, 3
    {
      hide WriteItems, WriteValue, Behind;
      BehindNothing(WriteItems(tokens, depth, finite, true));
      out := out + "[";
      var first := true;
      ghost var written := "";
      while More(tokens)
        invariant |tokens| <= old(|tokens|) && out == old(out) + "[" + written
        invariant WriteItems(old(tokens), depth, finite, true) ==
                  Behind(written, WriteItems(tokens, depth, finite, first))
        decreases |tokens|
      {
        ghost var before, ahead := written, tokens;
        ItemBehind(before, ahead, depth, finite, first);
        if !first {
          out := out + ", ";
        }
        ghost var value := WriteValue(tokens, depth + 1, finite);
        ok := Value(depth + 1, finite);
        if !ok {
          return;
        }
        written := before + (Comma(first) + value.value.text);
        first := false;
      }
      MembersEnd(tokens, depth, finite, first);
      BehindEnd(written, tokens);
      if tokens == [] {
        return false;
      }
      tokens := tokens[1..];
      out := out + "]";
      ok := true;
    }
  }

  /** Text already written in front of the rest. */
  function Behind(text: string, o: Option<Output>): Option<Output> {
    match o
    case None => None
    case Some(v) => Some(Output(text + v.text, v.rest))
  }

  lemma BehindNothing(o: Option<Output>)
    ensures Behind("", o) == o
  {
    if o.Some? {
      assert "" + o.value.text == o.value.text;
    }
  }

  lemma BehindEnd(written: string, ts: seq<Token>)
    ensures Behind(written, Some(Output("", ts))) == Some(Output(written, ts))
  {
    assert written + "" == written;
  }

  lemma BehindMore(a: string, b: string, o: Option<Output>)
    ensures Behind(a, Behind(b, o)) == Behind(a + b, o)
  {
    if o.Some? {
      assert a + (b + o.value.text) == a + b + o.value.text;
    }
  }

  lemma OneMoreEscaped(before: string, s: string, i: nat)
    requires i < |s|
    ensures before + EscapedAll(s[..i]) + Escaped(s[i]) == before + EscapedAll(s[..i + 1])
  {
    hide Escaped;
    assert s[..i + 1][..i] == s[..i];
  }

  lemma LiteralIs(before: string, s: string)
    ensures before + "\"" + EscapedAll(s) + "\"" == before + Literal(s)
  {
    hide EscapedAll;
  }

  lemma MembersEnd(ts: seq<Token>, depth: nat, finite: string -> bool, first: bool)
    requires !More(ts)
    ensures WriteMembers(ts, depth, finite, first) == Some(Output("", ts)) == WriteItems(ts, depth, finite, first)
  {}

  lemma MemberBehind(written: string, ts: seq<Token>, depth: nat, finite: string -> bool, first: bool)
    requires More(ts)
    ensures !ts[0].StringToken? ==> Behind(written, WriteMembers(ts, depth, finite, first)) == None
    ensures ts[0].StringToken? ==>
              var v := WriteValue(ts[1..], depth + 1, finite);
              Behind(written, WriteMembers(ts, depth, finite, first)) ==
              if v.None? then None
              else Behind(written + (Comma(first) + Literal(ts[0].text) + ": " + v.value.text),
                          WriteMembers(v.value.rest, depth, finite, false))
  {
    hide WriteValue, Literal, Comma;
    if ts[0].StringToken? {
      var v := WriteValue(ts[1..], depth + 1, finite);
      if v.Some? {
        BehindMore(written, Comma(first) + Literal(ts[0].text) + ": " +
            v.value.text, WriteMembers(v.value.rest, depth, finite, false));
      }
    }
  }

  lemma ItemBehind(written: string, ts: seq<Token>, depth: nat, finite: string -> bool, first: bool)
    requires More(ts)
    ensures var v := WriteValue(ts, depth + 1, finite);
            Behind(written, WriteItems(ts, depth, finite, first)) ==
            if v.None? then None
            else Behind(written + (Comma(first) + v.value.text), WriteItems(v.value.rest, depth, finite, false))
  {
    hide WriteValue, Comma;
    var v := WriteValue(ts, depth + 1, finite);
    if v.Some? {
      BehindMore(written, Comma(first) + v.value.text, WriteItems(v.value.rest, depth, finite, false));
    }
  }

  // ----- whole texts -----

  /** What the decoder makes of a text: its tokens, and whether it then ends without an error. */
  datatype Stream = Stream(tokens: seq<Token>, clean: bool)

  function CanonicalOf(stream: Stream, finite: string -> bool): Option<string> {
    match WriteValue(stream.tokens, 0, finite)
    case None => None
    case Some(o) => if o.rest == [] && stream.clean then Some(o.text) else None
  }

  /** `canonicalJSON`. */
  method CanonicalJson(stream: Stream, finite: string -> bool) returns (text: Option<string>)
    ensures text == CanonicalOf(stream, finite)
  {
    hide WriteValue;
    var w := new Writer(stream.tokens);
    var ok := w.Value(0, finite);
    if !ok {
      return None;
    }
    if w.tokens != [] || !stream.clean {
      return None;
    }
    ghost var o := WriteValue(stream.tokens, 0, finite).value;
    assert w.out == "" + o.text == o.text;
    text := Some(w.out);
  }

  // ----- the writer writes the tree -----

  lemma {:induction false} ValueWritten(v: Tree, rest: seq<Token>, depth: nat, finite: string -> bool)
    ensures WriteValue(Tokens(v) + rest, depth, finite) ==
            if depth + Height(v) <= MAX_DEPTH && AllFinite(v, finite) then Some(Output(Printed(v), rest)) else None
    decreases v
  {
    hide WriteItems, WriteMembers, PrintedItems, PrintedMembers, Literal;
    var ts := Tokens(v) + rest;
    match v {
      case List(items) =>
        var closing := [CloseList] + rest;
        assert ts == [OpenList] + (ItemTokens(items) + closing);
        assert ts[1..] == ItemTokens(items) + closing;
        assert closing[1..] == rest;
        if depth < MAX_DEPTH {
          ItemsWritten(items, closing, depth, finite, true);
        }
      case Object(members) =>
        var closing := [CloseObject] + rest;
        assert ts == [OpenObject] + (MemberTokens(members) + closing);
        assert ts[1..] == MemberTokens(members) + closing;
        assert closing[1..] == rest;
        if depth < MAX_DEPTH {
          MembersWritten(members, closing, depth, finite, true);
        }
      case Null =>
        FirstToken(NullToken, rest);
      case Bool(b) =>
        FirstToken(BoolToken(b), rest);
      case Number(lexeme) =>
        FirstToken(NumberToken(lexeme), rest);
      case String(s) =>
        FirstToken(StringToken(s), rest);
    }
  }

  lemma FirstToken(t: Token, rest: seq<Token>)
    ensures ([t] + rest)[1..] == rest && ([t] + rest)[0] == t
  {}

  lemma TokensGoOn(v: Tree, rest: seq<Token>)
    ensures More(Tokens(v) + rest)
  {}

  lemma {:induction false} ItemsWritten(items: Items, rest: seq<Token>, depth: nat, finite: string -> bool, first: bool)
    requires depth < MAX_DEPTH && !More(rest)
    ensures WriteItems(ItemTokens(items) + rest, depth, finite, first) ==
            if depth + 1 + ItemsHeight(items) <= MAX_DEPTH &&
                ItemsFinite(items, finite) then Some(Output(PrintedItems(items, first), rest))
            else None
    decreases items
  {
    hide WriteValue, Tokens, Printed, Comma, Height, AllFinite;
    match items {
      case NoItems =>
        assert ItemTokens(items) + rest == rest;
      case Item(v, tail) =>
        var ts := Tokens(v) + (ItemTokens(tail) + rest);
        assert ItemTokens(items) + rest == ts;
        TokensGoOn(v, ItemTokens(tail) + rest);
        ValueWritten(v, ItemTokens(tail) + rest, depth + 1, finite);
        ItemsWritten(tail, rest, depth, finite, false);
    }
  }

  lemma {:induction false} MembersWritten(members: Members, rest: seq<Token>, depth: nat, finite: string -> bool,
          first: bool)
    requires depth < MAX_DEPTH && !More(rest)
    ensures WriteMembers(MemberTokens(members) + rest, depth, finite, first) ==
            if depth + 1 + MembersHeight(members) <= MAX_DEPTH && MembersFinite(members, finite) then
              Some(Output(PrintedMembers(members, first), rest))
            else None
    decreases members
  {
    hide WriteValue, Tokens, Printed, Literal, Comma, Height, AllFinite;
    match members {
      case NoMembers =>
        assert MemberTokens(members) + rest == rest;
      case Member(key, v, tail) =>
        var after := Tokens(v) + (MemberTokens(tail) + rest);
        assert MemberTokens(members) + rest == [StringToken(key)] + after;
        assert ([StringToken(key)] + after)[1..] == after;
        ValueWritten(v, MemberTokens(tail) + rest, depth + 1, finite);
        MembersWritten(tail, rest, depth, finite, false);
    }
  }

  function AllTokens(vs: seq<Tree>): seq<Token> {
    if vs == [] then [] else Tokens(vs[0]) + AllTokens(vs[1..])
  }

  /** A text is accepted exactly when it holds one value, not too deep and without a number out of range; its canonical
      form is then the text of that value. */
  lemma CanonicalIs(vs: seq<Tree>, clean: bool, finite: string -> bool)
    ensures CanonicalOf(Stream(AllTokens(vs), clean), finite) ==
            if clean && |vs| == 1 && Height(vs[0]) <= MAX_DEPTH && AllFinite(vs[0], finite) then Some(Printed(vs[0]))
                else None
  {
    hide Tokens, Height, AllFinite, Printed, WriteValue;
    if vs == [] {
      assert WriteValue([], 0, finite) == None;
    } else {
      ValueWritten(vs[0], AllTokens(vs[1..]), 0, finite);
    }
  }

}
