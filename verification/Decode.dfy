/** The batch reader of completions (dsml/decode.go): the index loops, proved against the grammar. */
module Decode {
  import opened Text
  import opened ToolText
  import opened Markup
  import opened Calls
  import opened Grammar
  import opened Phases
  import opened Transitions

  // ----- finding a block -----

  predicate NoOpener(table: seq<Syntax>, text: string, from: nat, to: nat) {
    forall j :: from <= j < to <= |text| ==> OpenAt(table, text[j..]) == NoMarker
  }

  /** The openers among the first `k` wrappers and the first `m` bare invokes of the table. */
  function OpenAmong(table: seq<Syntax>, k: nat, m: nat, s: string): Marker
    requires k <= |table| && m <= |table|
  {
    var t := ToolStartAt(table[..k], s);
    if t != NoMarker then t else InvokeAt(table[..m], s)
  }

  lemma {:induction false} ToolStartAppends(table: seq<Syntax>, syn: Syntax, s: string)
    ensures ToolStartAt(table + [syn], s) ==
            if ToolStartAt(table, s) != NoMarker then ToolStartAt(table, s)
            else if syn.toolStart <= s then Opens(syn, false) else NoMarker
  {
    if table != [] {
      assert (table + [syn])[1..] == table[1..] + [syn];
      ToolStartAppends(table[1..], syn, s);
    }
  }

  lemma {:induction false} InvokeAppends(table: seq<Syntax>, syn: Syntax, s: string)
    ensures InvokeAt(table + [syn], s) ==
            if InvokeAt(table, s) != NoMarker then InvokeAt(table, s)
            else if OpensTag(s, syn.invokeStart) then Opens(syn, true) else NoMarker
  {
    if table != [] {
      assert (table + [syn])[1..] == table[1..] + [syn];
      InvokeAppends(table[1..], syn, s);
    }
  }

  /** `best` is where the first of the openers considered so far begins, or -1. */
  predicate BestSoFar(table: seq<Syntax>, k: nat, m: nat, text: string, from: nat, best: int, syn: Syntax,
          implicit: bool)
    requires k <= |table| && m <= |table|
  {
    && -1 <= best < |text|
    && (best >= 0 ==> from <= best && OpenAmong(table, k, m, text[best..]) == Opens(syn, implicit))
    && (forall j ::
       from <= j < (if best < 0 then |text| + 1 else best) && j <= |text| ==>
           OpenAmong(table, k, m, text[j..]) == NoMarker)
  }

  /** `consider`: the earlier position wins, the earlier candidate on a tie. */
  function Earlier(best: int, pos: int): bool {
    pos >= 0 && (best < 0 || pos < best)
  }

  lemma ConsiderToolStart(table: seq<Syntax>, k: nat, text: string, from: nat, best: int, syn: Syntax,
          implicit: bool, pos: int)
    requires k < |table| && from <= |text| && BestSoFar(table, k, 0, text, from, best, syn, implicit)
    requires pos == IndexFrom(text, from, table[k].toolStart)
    ensures if Earlier(best, pos) then BestSoFar(table, k + 1, 0, text, from, pos, table[k], false)
            else BestSoFar(table, k + 1, 0, text, from, best, syn, implicit)
  {
    var t := table[k].toolStart;
    assert table[..k + 1] == table[..k] + [table[k]];
    IndexIsFirst(text[from..], t);
    forall j | from <= j <= |text| ensures text[from..][j - from..] == text[j..] {}
    forall j | from <= j <= |text|
      ensures OpenAmong(table, k + 1, 0, text[j..]) ==
              if OpenAmong(table, k, 0, text[j..]) != NoMarker then OpenAmong(table, k, 0, text[j..])
              else if t <= text[j..] then Opens(table[k], false) else NoMarker
      ensures j < |text| && t <= text[j..] ==> pos >= 0 && pos <= j
      ensures pos >= 0 && j == pos ==> t <= text[j..]
      ensures j == |text| ==> !(t <= text[j..])
    {
      ToolStartAppends(table[..k], table[k], text[j..]);
      assert text[from..][j - from..] == text[j..];
    }
  }

  lemma ConsiderInvoke(table: seq<Syntax>, m: nat, text: string, from: nat, best: int, syn: Syntax, implicit: bool,
          pos: int)
    requires m < |table| && from <= |text| && BestSoFar(table, |table|, m, text, from, best, syn, implicit)
    requires pos < |text| && (pos >= 0 ==> from <= pos && OpensTag(text[pos..], table[m].invokeStart))
    requires forall j ::
             from <= j < (if pos < 0 then |text| + 1 else pos) && j <= |text| ==>
                 !OpensTag(text[j..], table[m].invokeStart)
    ensures if Earlier(best, pos) then BestSoFar(table, |table|, m + 1, text, from, pos, table[m], true)
            else BestSoFar(table, |table|, m + 1, text, from, best, syn, implicit)
  {
    var t := table[m].invokeStart;
    assert table[..m + 1] == table[..m] + [table[m]];
    forall j | from <= j <= |text|
      ensures OpenAmong(table, |table|, m + 1, text[j..]) ==
              if OpenAmong(table, |table|, m, text[j..]) != NoMarker then OpenAmong(table, |table|, m, text[j..])
              else if OpensTag(text[j..], t) then Opens(table[m], true) else NoMarker
    {
      InvokeAppends(table[..m], table[m], text[j..]);
    }
  }

  /** The first `prefix` tag at or after `from`, skipping longer element names. */
  method FindTag(text: string, from: nat, prefix: string) returns (pos: int)
    requires from <= |text| && IsOpener(prefix)
    ensures -1 <= pos < |text|
    ensures pos >= 0 ==> from <= pos && OpensTag(text[pos..], prefix)
    ensures forall j ::
            from <= j < (if pos < 0 then |text| + 1 else pos) && j <= |text| ==> !OpensTag(text[j..], prefix)
  {
    var at := from;
    while true
      invariant from <= at <= |text|
      invariant forall j :: from <= j < at ==> !OpensTag(text[j..], prefix)
      decreases |text| - at
    {
      pos := IndexFrom(text, at, prefix);
      NextTag(text, at, prefix);
      if pos < 0 {
        return;
      }
      if OpensTag(text[pos..], prefix) {
        return;
      }
      at := pos + |prefix|;
    }
  }

  lemma NextTag(text: string, at: nat, prefix: string)
    requires at <= |text| && IsOpener(prefix)
    ensures var pos := IndexFrom(text, at, prefix);
            && (pos < 0 ==> forall j :: at <= j <= |text| ==> !OpensTag(text[j..], prefix))
            && (pos >= 0 ==> forall j :: at <= j < pos ==> !OpensTag(text[j..], prefix))
            && (pos >= 0 ==> forall j :: pos < j < pos + |prefix| ==> !OpensTag(text[j..], prefix))
  {
    var pos := IndexFrom(text, at, prefix);
    IndexIsFirst(text[at..], prefix);
    forall j | at <= j <= |text| ensures text[at..][j - at..] == text[j..] {}
    if pos >= 0 {
      assert prefix <= text[pos..];
      forall j | pos < j < pos + |prefix| ensures !OpensTag(text[j..], prefix) {
        assert text[j..][0] == text[pos..][j - pos] == prefix[j - pos] == prefix[1..][j - pos - 1];
      }
    }
  }

  datatype Found = Found(start: nat, rawStart: nat, syn: Syntax, implicit: bool)

  /** `findToolBlockStartSyntax`: the earliest opener at or after `from`. */
  method FindToolBlockStart(table: seq<Syntax>, text: string, from: nat) returns (r: Option<Found>)
    requires table != [] && from <= |text|
    ensures r.None? ==> NoOpener(table, text, from, |text|)
    ensures r.Some? ==>
      && from <= r.value.start < |text|
      && OpenAt(table, text[r.value.start..]) == Opens(r.value.syn, r.value.implicit)
      && NoOpener(table, text, from, r.value.start)
      && r.value.rawStart == RawStart(text, r.value.start)
  {
    hide OpenAmong, Index, WellFormed, OpensTag, InvokeAt, ToolStartAt, IsOpener;
    var best, bestImplicit := -1, false;
    var bestSyn := table[0];
    NothingConsidered(table, text);
    var k := 0;
    while k < |table|
      invariant 0 <= k <= |table|
      invariant BestSoFar(table, k, 0, text, from, best, bestSyn, bestImplicit)
    {
      var pos := IndexFrom(text, from, table[k].toolStart);
      ConsiderToolStart(table, k, text, from, best, bestSyn, bestImplicit, pos);
      if Earlier(best, pos) {
        best, bestSyn, bestImplicit := pos, table[k], false;
      }
      k := k + 1;
    }
    var m := 0;
    while m < |table|
      invariant 0 <= m <= |table|
      invariant BestSoFar(table, |table|, m, text, from, best, bestSyn, bestImplicit)
    {
      SyntaxOpens(table[m]);
      var pos := FindTag(text, from, table[m].invokeStart);
      ConsiderInvoke(table, m, text, from, best, bestSyn, bestImplicit, pos);
      if Earlier(best, pos) {
        best, bestSyn, bestImplicit := pos, table[m], true;
      }
      m := m + 1;
    }
    AllConsidered(table, text);
    if best < 0 {
      return None;
    }
    var raw := best;
    if raw >= 2 && text[raw - 2..raw] == "\n\n" {
      raw := raw - 2;
    }
    return Some(Found(best, raw, bestSyn, bestImplicit));
  }

  lemma NothingConsidered(table: seq<Syntax>, text: string)
    ensures forall j :: 0 <= j <= |text| ==> OpenAmong(table, 0, 0, text[j..]) == NoMarker
  {}

  lemma AllConsidered(table: seq<Syntax>, text: string)
    ensures forall j :: 0 <= j <= |text| ==> OpenAmong(table, |table|, |table|, text[j..]) == OpenAt(table, text[j..])
  {
    assert table[..|table|] == table;
  }

  // ----- parsing a block -----

  datatype ToolCall = ToolCall(name: string, arguments: string, exact: string)

  /** A recorded call as the batch reader returns it. */
  function Returned(json: Json, c: Call, exact: string): ToolCall {
    ToolCall(c.name, Arguments(json, c.params, false), exact)
  }

  function AllReturned(json: Json, calls: seq<Call>, exact: string): (r: seq<ToolCall>)
    ensures |r| == |calls|
  {
    if calls == [] then []
    else AllReturned(json, calls[..|calls| - 1], exact) + [Returned(json, calls[|calls| - 1], exact)]
  }

  /** `skipASCIIWhitespace`. */
  method SkipWhitespace(text: string, start: nat) returns (index: nat)
    requires start <= |text|
    ensures start <= index <= |text| && text[index..] == SkipSpace(text[start..])
    ensures SkipSpace(text[index..]) == text[index..]
  {
    hide SkipSpace;
    index := start;
    while index < |text|
      invariant start <= index <= |text|
      invariant SkipSpace(text[index..]) == SkipSpace(text[start..])
    {
      SkipStep(text, index);
      if text[index] == ' ' || text[index] == '\t' || text[index] == '\n' || text[index] == '\r' {
        index := index + 1;
      } else {
        return;
      }
    }
    SkipNothing();
  }

  lemma SkipStep(text: string, index: nat)
    requires index < |text|
    ensures SkipSpace(text[index..]) == if IsAsciiSpace(text[index]) then SkipSpace(text[index + 1..])
            else text[index..]
  {
    assert text[index..][1..] == text[index + 1..];
  }

  lemma SkipNothing()
    ensures SkipSpace("") == ""
  {}

  /** The batch reading of a block: literals are recorded as they stand. */
  function BatchBlock(d: Reader, syn: Syntax, implicit: bool): Block {
    Block(syn, implicit, d.json, false)
  }

  /** The scan of a block from its opening tag. */
  function BatchScan(d: Reader, syn: Syntax, implicit: bool, r: string): (s: Scan)
    ensures s.Closed? ==> |s.rest| <= |r|
    ensures s.Bad? ==> |s.at| <= |r|
  {
    ScanBlock(BatchBlock(d, syn, implicit), if implicit then r else DropPrefix(r, syn.toolStart), [])
  }

  lemma TagAtIndex(text: string, index: nat, n: nat)
    requires index + n <= |text|
    ensures text[index..][..n] == text[index..index + n]
    ensures text[index..][n..] == text[index + n..]
  {}

  /** One parameter element: `index` moves past its close tag. */
  method ParseParam(b: Block, text: string, start: nat, args: OrderedArgs, ghost calls: seq<Call>,
          ghost name: string, ghost ps: seq<Param>)
      returns (ok: bool, index: nat, ghost p: Param)
    requires start <= |text| && OpensTag(text[start..], b.syn.paramStart) && !(b.syn.invokeEnd <= text[start..]) &&
             !b.live
    requires args.Valid() && args.Contents() == Collect(b.json, ps, false)
    modifies args
    ensures args.Valid() && start <= index <= |text|
    ensures !ok ==> ScanBody(b, text[start..], calls, name, ps).Bad?
    ensures ok ==> start < index && args.Contents() == Collect(b.json, ps + [p], false)
    ensures ok ==> ScanBody(b, text[start..], calls, name, ps) == ScanBody(b, text[index..], calls, name, ps + [p])
  {
    hide ScanBody, ScanValue, Collect, SetArg, Attr, Unescape, Index, OpensTag;
    p := Param("", "", "", true);
    index := start;
    var tagEnd := Index(text[index..], ">");
    ParamOpens(b, calls, name, ps, text[index..]);
    if tagEnd < 0 {
      return false, index, p;
    }
    TagAtIndex(text, index, tagEnd + 1);
    var tag := text[index..index + tagEnd + 1];
    var paramName := Attr(tag, "name");
    if paramName == None || paramName.value == "" {
      return false, index, p;
    }
    var isStringText := Attr(tag, "string");
    if isStringText == None {
      isStringText := Some("true");
    }
    var isString := isStringText.value != "false";
    var valueStart := index + tagEnd + 1;
    assert ScanParam(b, text[index..], calls, name, ps) ==
           ScanValue(b, text[valueStart..], calls, name, ps, paramName.value, isString);
    var valueEnd := Index(text[valueStart..], b.syn.paramEnd);
    ValueSteps(b, text[valueStart..], calls, name, ps, paramName.value, isString);
    if valueEnd < 0 {
      return false, index, p;
    }
    TagAtIndex(text, valueStart, valueEnd);
    TagAtIndex(text, valueStart, valueEnd + |b.syn.paramEnd|);
    var raw := text[valueStart..valueStart + valueEnd];
    p := BlockParam(b.syn, paramName.value, raw, isString);
    CollectAppends(b.json, ps, p);
    if isString {
      var decoded := UnescapeToolText(raw, b.syn.paramEnd);
      args.Set(b.json, paramName.value, decoded, true);
    } else {
      args.Set(b.json, paramName.value, raw, false);
    }
    index := valueStart + valueEnd + |b.syn.paramEnd|;
    ok := true;
  }

  lemma ValueSteps(b: Block, r: string, calls: seq<Call>, name: string, ps: seq<Param>, key: string, isString: bool)
    ensures var end := Index(r, b.syn.paramEnd);
            ScanValue(b, r, calls, name, ps, key, isString) ==
            if end < 0 then Bad(r)
            else ScanBody(b, r[end + |b.syn.paramEnd|..], calls, name, ps +
                [BlockParam(b.syn, key, r[..end], isString)])
  {
    hide ScanBody, Index;
  }

  lemma CollectAppends(json: Json, ps: seq<Param>, p: Param)
    ensures Collect(json, ps + [p], false) == SetArg(Collect(json, ps, false), p.key, Fragment(json, p, false))
  {
    assert (ps + [p])[..|ps|] == ps;
  }

  datatype Item = Failed | Closes | Another

  /** One step of the body loop: a parameter is recorded, or the close tag reached. */
  method ParseItem(b: Block, text: string, start: nat, args: OrderedArgs, ghost calls: seq<Call>, ghost name: string,
          ghost ps: seq<Param>)
      returns (item: Item, index: nat, ghost read: seq<Param>)
    requires start <= |text| && !b.live
    requires args.Valid() && args.Contents() == Collect(b.json, ps, false)
    modifies args
    ensures args.Valid() && start <= index <= |text|
    ensures item == Failed ==> ScanBody(b, text[start..], calls, name, ps).Bad?
    ensures item == Another ==> start < index
    ensures item == Closes ==> b.syn.invokeEnd <= text[index..] && SkipSpace(text[index..]) == text[index..]
    ensures item != Failed ==> args.Contents() == Collect(b.json, read, false)
    ensures item != Failed ==>
            ScanBody(b, text[start..], calls, name, ps) == ScanBody(b, text[index..], calls, name, read)
  {
    hide ScanBlock, ScanBody, Collect, Arguments, SkipSpace, SetArg, Fragment, BlockParam, OpensTag, WellFormed,
         ScanParam, BodyAt, IsAsciiSpace;
    read := ps;
    BodySkips(b, text[start..], calls, name, ps);
    index := SkipWhitespace(text, start);
    var rest := text[index..];
    if b.syn.invokeEnd <= rest {
      return Closes, index, ps;
    }
    BodySteps(b, rest, calls, name, ps);
    if !OpensTag(rest, b.syn.paramStart) {
      return Failed, index, ps;
    }
    var ok;
    ghost var p;
    ok, index, p := ParseParam(b, text, index, args, calls, name, ps);
    item := if ok then Another else Failed;
    read := ps + [p];
  }

  /** The parameters of one invoke element, up to and past its close tag. */
  method ParseBody(b: Block, text: string, start: nat, ghost calls: seq<Call>, ghost name: string)
      returns (ok: bool, index: nat, arguments: string, ghost ps: seq<Param>)
    requires start <= |text| && !b.live
    ensures start <= index <= |text|
    ensures !ok ==> ScanBody(b, text[start..], calls, name, []).Bad?
    ensures ok ==> arguments == Arguments(b.json, ps, false)
    ensures ok ==> ScanBody(b, text[start..], calls, name, []) == ScanBlock(b, text[index..], calls + [Call(name, ps)])
  {
    hide ScanBlock, ScanBody, Collect, Arguments, SkipSpace, BuildJson;
    index, arguments, ps := start, "", [];
    var args := new OrderedArgs();
    CollectNone(b.json);
    var item := Another;
    while item == Another
      invariant start <= index <= |text| && args.Valid() && fresh(args)
      invariant item != Failed ==> args.Contents() == Collect(b.json, ps, false)
      invariant item != Failed ==>
                ScanBody(b, text[start..], calls, name, []) == ScanBody(b, text[index..], calls, name, ps)
      invariant item == Failed ==> ScanBody(b, text[start..], calls, name, []).Bad?
      invariant item == Closes ==> b.syn.invokeEnd <= text[index..] && SkipSpace(text[index..]) == text[index..]
      decreases item == Another, |text| - index
    {
      item, index, ps := ParseItem(b, text, index, args, calls, name, ps);
    }
    if item == Failed {
      ok := false;
      return;
    }
    arguments := args.Build(b.json);
    BodyEnds(b, text, index, calls, name, ps, arguments);
    index := index + |b.syn.invokeEnd|;
    ok := b.json.valid(arguments);
  }

  /** One invoke element. */
  method ParseInvoke(b: Block, text: string, start: nat, ghost calls: seq<Call>)
      returns (ok: bool, index: nat, name: string, arguments: string, ghost c: Call)
    requires start <= |text| && !b.live
    ensures start <= index <= |text|
    ensures !ok ==> ScanInvoke(b, text[start..], calls).Bad?
    ensures ok ==> start < index && name == c.name && arguments == Arguments(b.json, c.params, false)
    ensures ok ==> ScanInvoke(b, text[start..], calls) == ScanBlock(b, text[index..], calls + [c])
  {
    hide ScanBlock, ScanBody, Attr, Arguments;
    c := Call("", []);
    name, arguments := "", "";
    index := start;
    var tagEnd := Index(text[index..], ">");
    if tagEnd < 0 {
      return false, index, name, arguments, c;
    }
    TagAtIndex(text, index, tagEnd + 1);
    var attr := Attr(text[index..index + tagEnd + 1], "name");
    if attr == None || attr.value == "" {
      return false, index, name, arguments, c;
    }
    name := attr.value;
    index := index + tagEnd + 1;
    ghost var ps;
    ok, index, arguments, ps := ParseBody(b, text, index, calls, name);
    c := Call(name, ps);
  }

  lemma CollectNone(json: Json)
    ensures Collect(json, [], false) == []
  {}

  lemma BodyEnds(b: Block, text: string, index: nat, calls: seq<Call>, name: string, ps: seq<Param>, arguments: string)
    requires index <= |text| && b.syn.invokeEnd <= text[index..] && SkipSpace(text[index..]) == text[index..] && !b.live
    requires arguments == BuildJson(b.json, Collect(b.json, ps, false))
    ensures arguments == Arguments(b.json, ps, false)
    ensures var rest := text[index + |b.syn.invokeEnd|..];
            ScanBody(b, text[index..], calls, name, ps) ==
            if b.json.valid(arguments) then ScanBlock(b, rest, calls + [Call(name, ps)]) else Bad(rest)
  {
    hide ScanBody, ScanBlock, BuildJson, Collect;
    TagAtIndex(text, index, |b.syn.invokeEnd|);
    BodySteps(b, text[index..], calls, name, ps);
  }

  lemma BodySteps(b: Block, r: string, calls: seq<Call>, name: string, ps: seq<Param>)
    requires SkipSpace(r) == r
    ensures b.syn.invokeEnd <= r ==>
              ScanBody(b, r, calls, name, ps) ==
              if b.json.valid(Arguments(b.json, ps, b.live)) then
                  ScanBlock(b, r[|b.syn.invokeEnd|..], calls + [Call(name, ps)])
              else Bad(r[|b.syn.invokeEnd|..])
    ensures !(b.syn.invokeEnd <= r) && !OpensTag(r, b.syn.paramStart) ==> ScanBody(b, r, calls, name, ps) == Bad(r)
  {
    hide ScanBlock, ScanParam, Arguments, SkipSpace;
  }

  /** `parseToolCalls`: the block that opens at `start`. */
  method ParseToolCalls(d: Reader, start: nat, rawStart: nat, text: string, syn: Syntax, implicit: bool)
      returns (ok: bool, calls: seq<ToolCall>, newIndex: nat, rawBlock: string, ghost read: seq<Call>)
    requires rawStart <= start < |text|
    requires if implicit then OpensTag(text[start..], syn.invokeStart) else syn.toolStart <= text[start..]
    ensures !ok ==> BatchScan(d, syn, implicit, text[start..]).Bad?
    ensures ok ==>
            start <= newIndex <= |text| && rawBlock == text[rawStart..newIndex] &&
                calls == AllReturned(d.json, read, "")
    ensures ok ==> BatchScan(d, syn, implicit, text[start..]) == Closed(read, text[newIndex..])
  {
    hide ScanBlock, ScanInvoke, ScanBody, Collect, Arguments, SkipSpace;
    var b := BatchBlock(d, syn, implicit);
    var index := start;
    if !implicit {
      TagAtIndex(text, index, |syn.toolStart|);
      index := index + |syn.toolStart|;
    }
    ghost var scan := BatchScan(d, syn, implicit, text[start..]);
    read, calls, rawBlock, newIndex := [], [], "", index;
    while true
      invariant start <= index <= |text|
      invariant scan == ScanBlock(b, text[index..], read)
      invariant calls == AllReturned(d.json, read, "")
      decreases |text| - index
    {
      BlockSkips(b, text[index..], read);
      index := SkipWhitespace(text, index);
      BlockSteps(b, text[index..], read);
      if !implicit && syn.toolEnd <= text[index..] {
        TagAtIndex(text, index, |syn.toolEnd|);
        index := index + |syn.toolEnd|;
        assert scan == Closed(read, text[index..]);
        return true, calls, index, text[rawStart..index], read;
      }
      if !OpensTag(text[index..], syn.invokeStart) {
        if implicit && |calls| > 0 {
          assert scan == Closed(read, text[index..]);
          return true, calls, index, text[rawStart..index], read;
        }
        return false, calls, index, "", read;
      }
      var name, arguments;
      ghost var c;
      ok, index, name, arguments, c := ParseInvoke(b, text, index, read);
      if !ok {
        return;
      }
      ReturnedAppends(d.json, read, c, "");
      read := read + [c];
      calls := calls + [ToolCall(name, arguments, "")];
    }
  }

  lemma ReturnedAppends(json: Json, calls: seq<Call>, c: Call, exact: string)
    ensures AllReturned(json, calls + [c], exact) == AllReturned(json, calls, exact) + [Returned(json, c, exact)]
  {
    assert (calls + [c])[..|calls|] == calls;
  }

  lemma BlockSteps(b: Block, r: string, calls: seq<Call>)
    requires SkipSpace(r) == r
    ensures !b.implicit && b.syn.toolEnd <= r ==> ScanBlock(b, r, calls) == Closed(calls, r[|b.syn.toolEnd|..])
    ensures (b.implicit || !(b.syn.toolEnd <= r)) ==>
              ScanBlock(b, r, calls) ==
              if OpensTag(r, b.syn.invokeStart) then ScanInvoke(b, r, calls)
              else if b.implicit && calls != [] then Closed(calls, r) else Bad(r)
  {
    hide ScanInvoke, SkipSpace;
  }
}
