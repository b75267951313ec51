/** What the arguments of a call mean (dsml/decode.go:401-427): read by RFC 8259 they are the object of the parameters,
    and for written calls (dsml/encode.go:186-216) the object that was written. */
module JsonArguments {
  import opened Text
  import opened ToolText
  import opened Markup
  import opened Calls
  import opened Grammar
  import opened Phases
  import opened Decode
  import opened Completion
  import opened StructuralScan
  import opened Encode
  import opened RoundTrip
  import opened MessageRoundTrip
  import opened StreamVsBatch
  import opened JsonText
  import opened JsonEscapes
  import opened JsonWriting
  import C = Canonical

  // ----- objects -----

  /** A member is replaced where it stands, or comes last. */
  function SetMember(ms: C.Members, key: string, v: C.Tree): C.Members {
    match ms
    case NoMembers => C.Member(key, v, C.NoMembers)
    case Member(k, w, tail) => if k == key then C.Member(key, v, tail) else C.Member(k, w, SetMember(tail, key, v))
  }

  function Find(ms: C.Members, key: string): Option<C.Tree> {
    match ms
    case NoMembers => None
    case Member(k, v, tail) => if k == key then Some(v) else Find(tail, key)
  }

  lemma {:induction false} SetIsFound(ms: C.Members, key: string, v: C.Tree, other: string)
    ensures Find(SetMember(ms, key, v), other) == if other == key then Some(v) else Find(ms, other)
  {
    match ms
    case NoMembers =>
    case Member(_, _, tail) => SetIsFound(tail, key, v, other);
  }

  lemma {:induction false} SetMeans(a: Args, key: string, value: string)
    ensures MembersOf(SetArg(a, key, value)) == SetMember(MembersOf(a), key, ValueOf(value))
  {
    hide ValueOf;
    if a != [] && a[0].0 != key {
      SetMeans(a[1..], key, value);
      assert ([a[0]] + SetArg(a[1..], key, value))[1..] == SetArg(a[1..], key, value);
    } else if a != [] {
      assert ([(key, value)] + a[1..])[1..] == a[1..];
    }
  }

  // ----- parameters -----

  /** What a reader records of a parameter. */
  function TextOf(p: Param, live: bool): string {
    if live then p.live else p.text
  }

  /** A string means its text, a literal its value. */
  function Meant(p: Param, live: bool): C.Tree {
    if p.isString then C.String(TextOf(p, live)) else ValueOf(TextOf(p, live))
  }

  predicate LiteralsRead(ps: seq<Param>, live: bool) {
    forall i :: 0 <= i < |ps| && !ps[i].isString ==> ReadText(TextOf(ps[i], live)).Some?
  }

  /** The object of the parameters, each in turn. */
  function Gathered(ps: seq<Param>, live: bool): C.Members {
    if ps == [] then C.NoMembers
    else var p := ps[|ps| - 1]; SetMember(Gathered(ps[..|ps| - 1], live), p.key, Meant(p, live))
  }

  predicate AllTexts(a: Args) {
    forall i :: 0 <= i < |a| ==> ReadText(a[i].1).Some?
  }

  lemma {:induction false} SetKeepsTexts(a: Args, key: string, value: string)
    requires AllTexts(a) && ReadText(value).Some?
    ensures AllTexts(SetArg(a, key, value))
  {
    hide ReadText;
    if a != [] && a[0].0 != key {
      SetKeepsTexts(a[1..], key, value);
    }
  }

  lemma FragmentMeans(p: Param, live: bool)
    requires !p.isString ==> ReadText(TextOf(p, live)).Some?
    ensures var f := Fragment(StandardJson(C.Literal), p, live); ReadText(f).Some? && ValueOf(f) == Meant(p, live)
  {
    hide ReadValue, SkipWs, C.Literal;
    LiteralIsText(TextOf(p, live));
  }

  lemma {:induction false} CollectMeans(ps: seq<Param>, live: bool)
    requires LiteralsRead(ps, live)
    ensures var a := Collect(StandardJson(C.Literal), ps, live); MembersOf(a) == Gathered(ps, live) && AllTexts(a)
  {
    hide ReadText, C.Literal, SetArg, SetMember, ValueOf, Meant, Fragment;
    if ps != [] {
      var n := |ps| - 1;
      var p, json := ps[n], StandardJson(C.Literal);
      assert forall i :: 0 <= i < n ==> ps[..n][i] == ps[i];
      CollectMeans(ps[..n], live);
      FragmentMeans(p, live);
      SetMeans(Collect(json, ps[..n], live), p.key, Fragment(json, p, live));
      SetKeepsTexts(Collect(json, ps[..n], live), p.key, Fragment(json, p, live));
    }
  }

  /** Read as JSON, the arguments either reader records are the object of the parameters. */
  lemma ArgumentsMean(ps: seq<Param>, live: bool)
    requires LiteralsRead(ps, live)
    ensures ReadText(Arguments(StandardJson(C.Literal), ps, live)) == Some(C.Object(Gathered(ps, live)))
  {
    hide ReadText, C.Literal, Collect, Gathered, BuildJson, MembersOf, LiteralsRead;
    CollectMeans(ps, live);
    ObjectReads(StandardJson(C.Literal), Collect(StandardJson(C.Literal), ps, live));
  }

  /** Under every key, the object holds what the last parameter of that key means, and nothing else. */
  lemma {:induction false} LastWins(ps: seq<Param>, live: bool, key: string)
    ensures Find(Gathered(ps, live), key) == None <==> forall i :: 0 <= i < |ps| ==> ps[i].key != key
    ensures forall i :: 0 <= i < |ps| && IsKept(ps, i) && ps[i].key == key ==>
              Find(Gathered(ps, live), key) == Some(Meant(ps[i], live))
  {
    hide Meant, SetMember, Find;
    if ps == [] {
      NothingFound(key);
    } else {
      var n := |ps| - 1;
      var init := ps[..n];
      LastWins(init, live, key);
      SetIsFound(Gathered(init, live), ps[n].key, Meant(ps[n], live), key);
      forall i | 0 <= i < |ps| && IsKept(ps, i) && ps[i].key == key
        ensures Find(Gathered(ps, live), key) == Some(Meant(ps[i], live))
      {
        if i < n {
          assert init[i] == ps[i] && IsKept(init, i);
        }
      }
      assert forall i :: 0 <= i < n ==> init[i] == ps[i];
    }
  }

  lemma NothingFound(key: string)
    ensures Find(C.NoMembers, key) == None
  {}

  /** The parameters as members, in order. */
  function InOrder(ps: seq<Param>, live: bool): C.Members {
    if ps == [] then C.NoMembers else C.Member(ps[0].key, Meant(ps[0], live), InOrder(ps[1..], live))
  }

  /** With distinct keys the object is the parameters in order. */
  lemma {:induction false} DistinctInOrder(ps: seq<Param>, live: bool)
    requires !HasDuplicate(ps)
    ensures Gathered(ps, live) == InOrder(ps, live)
  {
    hide Meant;
    if ps != [] {
      var n := |ps| - 1;
      var init, p := ps[..n], ps[n];
      assert !HasDuplicate(init) && forall i :: 0 <= i < n ==> init[i].key != p.key by {
        assert forall i :: 0 <= i < n ==> init[i] == ps[i];
      }
      DistinctInOrder(init, live);
      LastInOrder(init, p, live);
      assert init + [p] == ps;
    }
  }

  lemma {:induction false} LastInOrder(init: seq<Param>, p: Param, live: bool)
    requires forall i :: 0 <= i < |init| ==> init[i].key != p.key
    ensures SetMember(InOrder(init, live), p.key, Meant(p, live)) == InOrder(init + [p], live)
  {
    hide Meant;
    if init == [] {
      assert [] + [p] == [p] && [p][1..] == [];
    } else {
      assert (init + [p])[1..] == init[1..] + [p] && (init + [p])[0] == init[0];
      LastInOrder(init[1..], p, live);
    }
  }

  // ----- written calls -----

  /** What a written pair means to its reader: null is the empty string, and a literal under a name that ends in
      `string=` is a string. */
  function PairMeant(syn: Syntax, a: Argument): C.Tree {
    match a.value
    case Str(s) => C.String(s)
    case Null => C.String("")
    case Literal(s) =>
      if EndsWith(a.key, STRING_BARE) then C.String(Unescape(EscapeLiteral(s, syn.paramEnd), syn.paramEnd))
      else ValueOf(s)
  }

  function PairsMeant(syn: Syntax, pairs: seq<Argument>): C.Members {
    if pairs == [] then C.NoMembers
    else
      var a := pairs[|pairs| - 1];
      SetMember(PairsMeant(syn, pairs[..|pairs| - 1]), a.key, PairMeant(syn, a))
  }

  predicate LiteralsAreTexts(pairs: seq<Argument>) {
    forall i :: 0 <= i < |pairs| && pairs[i].value.Literal? ==> ReadText(pairs[i].value.text).Some?
  }

  lemma PairReadMeans(syn: Syntax, a: Argument)
    requires a.value.Literal? ==> ReadText(a.value.text).Some?
    ensures var p := ReadPair(syn, a);
            p.key == a.key && Meant(p, false) == PairMeant(syn, a) && (!p.isString ==> ReadText(p.text).Some?)
  {
    hide ReadValue, SkipWs, EscapeLiteral, Unescape, EndsWith, WellFormed;
    CloseTags(syn);
    if a.value.Literal? {
      LiteralMeans(a.value.text, syn.paramEnd);
    }
  }

  lemma {:induction false} PairsReadMean(syn: Syntax, pairs: seq<Argument>)
    requires LiteralsAreTexts(pairs)
    ensures var ps := ReadPairs(syn, pairs); Gathered(ps, false) == PairsMeant(syn, pairs) && LiteralsRead(ps, false)
  {
    hide ReadText, ReadPair, PairMeant, Meant, SetMember, WellFormed;
    if pairs != [] {
      var n := |pairs| - 1;
      assert forall i :: 0 <= i < n ==> pairs[..n][i] == pairs[i];
      PairsReadMean(syn, pairs[..n]);
      PairReadMeans(syn, pairs[n]);
      LastPairRead(syn, pairs);
      var ps := ReadPairs(syn, pairs);
      assert ps[..n] == ReadPairs(syn, pairs[..n]) && ps[n] == ReadPair(syn, pairs[n]);
      assert forall i :: 0 <= i < n ==> ps[i] == ps[..n][i];
    }
  }

  lemma {:induction false} LastPairRead(syn: Syntax, pairs: seq<Argument>)
    requires pairs != []
    ensures var n := |pairs| - 1; ReadPairs(syn, pairs) == ReadPairs(syn, pairs[..n]) + [ReadPair(syn, pairs[n])]
  {
    hide ReadPair, WellFormed;
    var n := |pairs| - 1;
    if n > 0 {
      LastPairRead(syn, pairs[1..]);
      assert pairs[1..][..n - 1] == pairs[..n][1..];
    }
  }

  /** A written call's arguments, as the batch reader returns them, are the object that was written. */
  lemma RequestMeans(syn: Syntax, c: Request)
    requires LiteralsAreTexts(PairsOf(c.input))
    ensures ReadText(Arguments(StandardJson(C.Literal), ReadRequest(syn, c).params, false)) ==
            Some(C.Object(PairsMeant(syn, PairsOf(c.input))))
  {
    hide ReadText, C.Literal, Arguments, Gathered, LiteralsRead, LiteralsAreTexts, WellFormed, ReadPairs, PairsMeant;
    PairsReadMean(syn, PairsOf(c.input));
    ArgumentsMean(ReadPairs(syn, PairsOf(c.input)), false);
  }

  /** The calls with these names, whose arguments read as these objects. */
  predicate Mean(syn: Syntax, returned: seq<ToolCall>, cs: seq<Request>) {
    && |returned| == |cs|
    && forall i :: 0 <= i < |cs| ==>
         returned[i].name == cs[i].name &&
         ReadText(returned[i].arguments) == Some(C.Object(PairsMeant(syn, PairsOf(cs[i].input))))
  }

  lemma ReturnedMean(syn: Syntax, cs: seq<Request>, exact: string)
    requires forall i :: 0 <= i < |cs| ==> LiteralsAreTexts(PairsOf(cs[i].input))
    ensures Mean(syn, AllReturned(StandardJson(C.Literal), ReadRequests(syn, cs), exact), cs)
  {
    hide ReadText, C.Literal, Arguments, LiteralsAreTexts, WellFormed, ReadPairs, PairsMeant, AllReturned;
    var json, calls := StandardJson(C.Literal), ReadRequests(syn, cs);
    ReturnedNames(json, calls, exact);
    forall i | 0 <= i < |cs| ensures calls[i] == ReadRequest(syn, cs[i]) {
      RequestAt(syn, cs, i);
    }
    forall i | 0 <= i < |cs|
      ensures ReadText(Arguments(json, calls[i].params, false)) ==
              Some(C.Object(PairsMeant(syn, PairsOf(cs[i].input))))
    {
      RequestMeans(syn, cs[i]);
    }
  }

  lemma {:induction false} RequestAt(syn: Syntax, cs: seq<Request>, i: nat)
    requires i < |cs|
    ensures ReadRequests(syn, cs)[i] == ReadRequest(syn, cs[i])
  {
    hide ReadRequest, WellFormed;
    if i > 0 {
      RequestAt(syn, cs[1..], i - 1);
    }
  }

  /** A written turn comes back with the calls that were made: the same names, and arguments that read as the objects
      that were written, whenever the reasoning's argument bodies close and no structural closer follows. */
  lemma TurnMeans(dialect: Dialect, literal: string -> bool, reasoning: string, content: string, cs: seq<Request>)
    requires IsBlockDialect(dialect) && cs != []
    requires var d := ReaderOf(dialect, StandardJson(C.Literal), literal);
             && PlainContent(d, content) && BodiesClose(Wrappers(d), reasoning)
             && NoCloser(Wrappers(d), content + BlockText(Rendered(dialect), cs) + EOS)
    requires forall i :: 0 <= i < |cs| ==> Renderable(cs[i]) && LiteralsAreTexts(PairsOf(cs[i].input))
    ensures var d, syn := ReaderOf(dialect, StandardJson(C.Literal), literal), Rendered(dialect);
            var m := ParseCompletion(d, ReplayedTurn(dialect, reasoning, content, cs), true);
            && m.malformed == None && m.content == TrimSpace(content) && m.reasoning == TrimSpace(reasoning)
            && Mean(syn, m.calls, cs)
  {
    hide WellFormed, PlainContent, Readable, Renderable, Wrappers, ParseCompletion, BlockText, ReadRequests,
         AllReturned, Table, XmlForms, EOS, TrimSpace, BodiesClose, NoCloser, Mean, ReadText, C.Literal, ReplayedTurn,
         Rendered, PairsOf;
    var json, syn := StandardJson(C.Literal), Rendered(dialect);
    assert Readable(Block(syn, false, json, false), cs) by {
      forall i | 0 <= i < |cs| ensures LiteralsAre(s => ReadText(s).Some?, PairsOf(cs[i].input)) {
        assert LiteralsAreTexts(PairsOf(cs[i].input));
      }
      ReadableInStandard(Block(syn, false, json, false), cs);
    }
    TurnRoundTrip(dialect, json, literal, reasoning, content, cs);
    ReturnedMean(syn, cs, BlockText(syn, cs));
  }
}
