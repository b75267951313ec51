/** The stream decoder against the batch reader (dsml/stream.go:45-49): which blocks both accept, and
    which arguments they record. */
module StreamVsBatch {
  import opened Text
  import opened ToolText
  import opened Markup
  import opened Calls
  import opened Grammar
  import opened Phases
  import opened Transitions
  import opened Decode
  import opened Completion
  import opened DecoderState

  // ----- the two scans of a block -----

  /** The arguments of the calls from `from` on are valid JSON, as the stream (`live`) or the batch reader records
      them. */
  predicate AllValid(json: Json, calls: seq<Call>, from: nat, live: bool) {
    forall i :: from <= i < |calls| ==> json.valid(Arguments(json, calls[i].params, live))
  }

  /** The scan that records arguments one way closes; then the other closes with the same calls exactly
      when their arguments are valid as it records them. */
  predicate Mirrors(json: Json, scan: Scan, other: Scan, from: nat, live: bool) {
    scan.Closed? ==>
      && from <= |scan.calls|
      && (if AllValid(json, scan.calls, from, live) then other == scan else other.Bad?)
  }

  lemma {:induction false} BlockMirrors(b: Block, live: bool, r: string, calls: seq<Call>)
    ensures Mirrors(b.json, ScanBlock(b, r, calls), ScanBlock(b.(live := live), r, calls), |calls|, live)
    decreases |r|, 2
  {
    hide ScanBody, InvokeHeader, SkipSpace, OpensTag, WellFormed, AllValid;
    var t := SkipSpace(r);
    NoneLeft(b.json, calls, live);
    assert ScanBlock(b, r, calls) == BlockAt(b, t, calls);
    assert ScanBlock(b.(live := live), r, calls) == BlockAt(b.(live := live), t, calls);
    if OpensTag(t, b.syn.invokeStart) {
      match InvokeHeader(t)
      case None =>
      case Some(h) => BodyMirrors(b, live, h.rest, calls, h.name, []);
    }
  }

  lemma NoneLeft(json: Json, calls: seq<Call>, live: bool)
    ensures AllValid(json, calls, |calls|, live)
  {}

  lemma {:induction false} BodyMirrors(b: Block, live: bool, r: string, calls: seq<Call>, name: string, ps: seq<Param>)
    ensures Mirrors(b.json, ScanBody(b, r, calls, name, ps), ScanBody(b.(live := live), r, calls, name, ps), |calls|,
                    live)
    decreases |r|, 1
  {
    hide ScanBlock, ScanParam, SkipSpace, OpensTag, Arguments, AllValid;
    var t := SkipSpace(r);
    if b.syn.invokeEnd <= t {
      var rest := t[|b.syn.invokeEnd|..];
      TagsNonEmpty(b.syn);
      BlockMirrors(b, live, rest, calls + [Call(name, ps)]);
      CallsKept(b, rest, calls + [Call(name, ps)]);
      OneMoreValid(b.json, ScanBlock(b, rest, calls + [Call(name, ps)]), calls, Call(name, ps), live);
    } else if OpensTag(t, b.syn.paramStart) {
      ParamMirrors(b, live, t, calls, name, ps);
    }
  }

  lemma {:induction false} ParamMirrors(b: Block, live: bool, r: string, calls: seq<Call>, name: string, ps: seq<Param>)
    ensures Mirrors(b.json, ScanParam(b, r, calls, name, ps), ScanParam(b.(live := live), r, calls, name, ps), |calls|,
                    live)
    decreases |r|, 0
  {
    hide ScanBody, ParamHeader, BlockParam, AllValid, WellFormed, Index;
    match ParamHeader(r)
    case None =>
    case Some(h) =>
      TagsNonEmpty(b.syn);
      var end := Index(h.rest, b.syn.paramEnd);
      if end >= 0 {
        var p := BlockParam(b.syn, h.name, h.rest[..end], h.isString);
        BodyMirrors(b, live, h.rest[end + |b.syn.paramEnd|..], calls, name, ps + [p]);
      }
  }

  lemma OneMoreValid(json: Json, scan: Scan, calls: seq<Call>, c: Call, live: bool)
    requires scan.Closed? ==> calls + [c] <= scan.calls
    ensures scan.Closed? ==>
              (AllValid(json, scan.calls, |calls|, live) <==>
                  json.valid(Arguments(json, c.params, live)) && AllValid(json, scan.calls, |calls| + 1, live))
  {
    hide Arguments;
    if scan.Closed? {
      assert scan.calls[|calls|] == (calls + [c])[|calls|] == c;
    }
  }

  /** A scan only adds calls. */
  lemma {:induction false} CallsKept(b: Block, r: string, calls: seq<Call>)
    ensures ScanBlock(b, r, calls).Closed? ==> calls <= ScanBlock(b, r, calls).calls
    decreases |r|, 2
  {
    hide ScanBody, InvokeHeader, SkipSpace, OpensTag, WellFormed;
    var t := SkipSpace(r);
    assert ScanBlock(b, r, calls) == BlockAt(b, t, calls);
    if OpensTag(t, b.syn.invokeStart) {
      match InvokeHeader(t)
      case None =>
        assert ScanInvoke(b, t, calls) == Bad(t);
      case Some(h) =>
        BodyCallsKept(b, h.rest, calls, h.name, []);
        assert ScanInvoke(b, t, calls) == ScanBody(b, h.rest, calls, h.name, []);
    }
  }

  lemma {:induction false} BodyCallsKept(b: Block, r: string, calls: seq<Call>, name: string, ps: seq<Param>)
    ensures ScanBody(b, r, calls, name, ps).Closed? ==> calls <= ScanBody(b, r, calls, name, ps).calls
    decreases |r|, 1
  {
    hide ScanBlock, ScanValue, ParamHeader, SkipSpace, OpensTag, Arguments;
    var t := SkipSpace(r);
    TagsNonEmpty(b.syn);
    assert ScanBody(b, r, calls, name, ps) == BodyAt(b, t, calls, name, ps);
    if b.syn.invokeEnd <= t {
      CallsKept(b, t[|b.syn.invokeEnd|..], calls + [Call(name, ps)]);
    } else if OpensTag(t, b.syn.paramStart) {
      match ParamHeader(t)
      case None =>
        assert ScanParam(b, t, calls, name, ps) == Bad(t);
      case Some(h) =>
        ValueCallsKept(b, h, calls, name, ps);
        assert ScanParam(b, t, calls, name, ps) == ScanValue(b, h.rest, calls, name, ps, h.name, h.isString);
    }
  }

  lemma {:induction false} ValueCallsKept(b: Block, h: Header, calls: seq<Call>, name: string, ps: seq<Param>)
    ensures var scan := ScanValue(b, h.rest, calls, name, ps, h.name, h.isString); scan.Closed? ==> calls <= scan.calls
    decreases |h.rest|, 2
  {
    hide ScanBody, BlockParam, WellFormed, Index;
    TagsNonEmpty(b.syn);
    var end := Index(h.rest, b.syn.paramEnd);
    if end >= 0 {
      var p := BlockParam(b.syn, h.name, h.rest[..end], h.isString);
      BodyCallsKept(b, h.rest[end + |b.syn.paramEnd|..], calls, name, ps + [p]);
    }
  }

  // ----- the trailing text -----

  /** The trailing text the stream decoder accepts: white space of the four ASCII bytes, and whether the
      end-of-sentence token follows it. */
  lemma TrailingText(rest: string)
    ensures (EOS <= SkipSpace(rest) || SkipSpace(rest) == "") <==> AsciiBlank(UpToEos(rest))
    ensures EOS <= SkipSpace(rest) <==> AsciiBlank(UpToEos(rest)) && Contains(rest, EOS)
  {
    var t := SkipSpace(rest);
    var k := |rest| - |t|;
    SkipSpaceBlank(rest);
    IndexIsFirst(rest, EOS);
    EosIsOpener();
    SkipSpaceIs(rest);
    if EOS <= t {
      forall j | 0 <= j < k ensures !(EOS <= rest[j..]) {
        assert rest[..k][j] == rest[j] == rest[j..][0];
      }
      IndexIs(rest, EOS, k);
    } else if AsciiBlank(UpToEos(rest)) && Contains(rest, EOS) {
      BlankThenEos(rest, Index(rest, EOS));
    }
  }

  lemma {:induction false} BlankThenEos(rest: string, i: nat)
    requires i <= |rest| && AsciiBlank(rest[..i]) && EOS <= rest[i..]
    ensures EOS <= SkipSpace(rest)
  {
    if i == 0 {
      assert rest[0..] == rest;
      assert rest[0] == '<';
    } else {
      assert IsAsciiSpace(rest[..i][0]);
      assert rest[1..][..i - 1] == rest[..i][1..];
      assert rest[1..][i - 1..] == rest[i..];
      BlankThenEos(rest[1..], i - 1);
    }
  }

  // ----- explicit and implicit blocks -----

  /** The block a text opens with after plain content. */
  predicate OpensBlock(d: Reader, t: string, n: nat, syn: Syntax, implicit: bool) {
    n == NextMarker(d, t) && n < |t| && MarkerAt(d, t[n..]) == Opens(syn, implicit)
  }

  /** Every block whose events the stream shows is one the batch reader returns, with the same names and
      parameters in the same order, unless the batch reader finds the arguments of a call to be no JSON. */
  lemma StreamedBlockIsParsed(d: Reader, t: string, n: nat, syn: Syntax, implicit: bool, cs: seq<Call>)
    requires OpensBlock(d, t, n, syn, implicit) && Decide(d, t).calls == Some(cs)
    ensures var m := ParseContent(d, t);
            if AllValid(d.json, cs, 0, false)
            then m.malformed == None && m.content == TrimSpace(t[..n]) && SameCalls(d.json, m.calls, cs)
            else m.malformed == Some(MalformedBlock) && m.calls == []
  {
    // The verdict on a text that opens with a block.
    assert n < |t| && !IsXml(d.dialect) &&
           Decide(d, t) == Judge(d, t, t[..n], implicit, ScanOpened(d, syn, implicit, t[n..])) by {
      hide ScanOpened, NextMarker, MarkerAt, Judge;
      OpensIsDsml(d, t[n..]);
    }
    hide ScanBlock, NextMarker, MarkerAt, AllValid, ParseContent, OpensBlock, AllReturned, TrimSpace, UpToEos,
         SkipSpace, Judge;
    var b := OpenedBlock(d, syn, implicit);
    var r := if implicit then t[n..] else DropPrefix(t[n..], syn.toolStart);
    BlockMirrors(b, false, r, []);
    var scan := ScanBlock(b, r, []);
    assert BatchScan(d, syn, implicit, t[n..]) == ScanBlock(b.(live := false), r, []);
    StreamAccepts(d, t, n, implicit, scan);
    BlockParsed(d, t, n, syn, implicit);
  }

  /** The message of a block the batch reader closes, or fails to close. */
  lemma BlockParsed(d: Reader, t: string, n: nat, syn: Syntax, implicit: bool)
    requires OpensBlock(d, t, n, syn, implicit)
    ensures var m := ParseContent(d, t);
            match BatchScan(d, syn, implicit, t[n..])
            case Bad(_) => m.malformed == Some(MalformedBlock) && m.calls == []
            case Closed(cs, rest) =>
              && (if TrimSpace(UpToEos(rest)) == ""
                  then m.malformed == None && m.content == TrimSpace(t[..n]) && SameCalls(d.json, m.calls, cs)
                  else m.malformed == Some(TextAfterBlock) && m.calls == [])
              && (AsciiBlank(UpToEos(rest)) ==> TrimSpace(UpToEos(rest)) == "")
  {
    hide ScanBlock, NextMarker, MarkerAt, TrimSpace, UpToEos, AllReturned, AsciiBlank, SameCalls;
    TrimBreaks(t, n);
    match BatchScan(d, syn, implicit, t[n..])
    case Bad(_) =>
    case Closed(cs, rest) =>
      ReturnedNames(d.json, cs, if !implicit then t[RawStart(t, n)..|t| - |rest|] else "");
      if AsciiBlank(UpToEos(rest)) {
        BlankTrims(UpToEos(rest));
      }
  }

  /** The calls as returned: each call's name, and its arguments as the batch reader builds them. */
  predicate SameCalls(json: Json, returned: seq<ToolCall>, cs: seq<Call>) {
    && |returned| == |cs|
    && forall i ::
       0 <= i < |cs| ==> returned[i].name == cs[i].name && returned[i].arguments == Arguments(json, cs[i].params, false)
  }

  lemma {:induction false} ReturnedNames(json: Json, cs: seq<Call>, exact: string)
    ensures SameCalls(json, AllReturned(json, cs, exact), cs)
  {
    hide Arguments;
    if cs != [] {
      ReturnedNames(json, cs[..|cs| - 1], exact);
    }
  }

  lemma BlankTrims(s: string)
    requires AsciiBlank(s)
    ensures TrimSpace(s) == ""
  {
    TrimLeftBlank(s);
  }

  lemma OpensIsDsml(d: Reader, s: string)
    ensures MarkerAt(d, s).Opens? ==> !IsXml(d.dialect)
  {}

  lemma StreamAccepts(d: Reader, t: string, n: nat, implicit: bool, scan: Scan)
    requires n <= |t| && !IsXml(d.dialect) && Judge(d, t, t[..n], implicit, scan).calls.Some?
    ensures scan.Closed? && Judge(d, t, t[..n], implicit, scan).calls == Some(scan.calls)
    ensures AsciiBlank(UpToEos(scan.rest))
  {
    hide SkipSpace, UpToEos, AsciiBlank, CutAfter;
    TrailingText(scan.rest);
  }

  /** The two line breaks that belong to a block are trimmed off its content anyway. */
  lemma TrimBreaks(t: string, n: nat)
    requires n <= |t|
    ensures TrimSpace(t[..RawStart(t, n)]) == TrimSpace(t[..n])
  {
    if RawStart(t, n) != n {
      var a := t[..n - 2];
      assert t[..n] == a + "\n\n" by {
        assert t[n - 2..n] == "\n\n";
      }
      TrimTail(a);
    }
  }

  lemma TrimTail(a: string)
    ensures TrimSpace(a + "\n\n") == TrimSpace(a)
  {
    hide TrimRight, TrimLeft;
    TrimLeftTail(a);
    var l := TrimLeft(a);
    if l != "" {
      TrimRightTail(l);
    } else {
      TrimLeftBlank("\n\n");
      assert TrimSpace("") == "" by {
        TrimLeftBlank("");
      }
    }
  }

  lemma TrimRightTail(l: string)
    ensures TrimRight(l + "\n\n") == TrimRight(l)
  {
    var s := l + "\n\n";
    assert SpaceEnding(s) == 1 && s[..|s| - 1] == l + "\n";
    assert SpaceEnding(l + "\n") == 1 && (l + "\n")[..|l|] == l;
    assert TrimRight(s) == TrimRight(l + "\n");
  }

  /** Trimming in front stops in the text, or takes all of it. */
  lemma {:induction false} TrimLeftTail(a: string)
    ensures TrimLeft(a) != "" ==> TrimLeft(a + "\n\n") == TrimLeft(a) + "\n\n"
    ensures TrimLeft(a) == "" ==> TrimLeft(a + "\n\n") == ""
  {
    var s := a + "\n\n";
    if a == "" {
      assert s == "\n\n";
      TrimLeftBlank(s);
    } else {
      assert SpaceAt(a + "\n\n") == SpaceAt(a) by {
        var s := a + "\n\n";
        assert s[0] == a[0];
        assert |a| >= 2 ==> s[1] == a[1];
        assert |a| >= 3 ==> s[2] == a[2];
        assert |a| == 1 ==> s[1] == '\n';
        assert |a| == 2 ==> s[2] == '\n';
      }
      var k := SpaceAt(a);
      if k > 0 {
        assert s[k..] == a[k..] + "\n\n";
        TrimLeftTail(a[k..]);
      }
    }
  }

  /** Which of the blocks the batch reader closes the stream decoder accepts, exactly: arguments that stay
      JSON once unescaped, trailing ASCII white space, and for a block without wrapper the end-of-sentence token. */
  lemma ParsedBlockIsStreamed(d: Reader, t: string, n: nat, syn: Syntax, implicit: bool, cs: seq<Call>, rest: string)
    requires OpensBlock(d, t, n, syn, implicit) && !IsXml(d.dialect) &&
             BatchScan(d, syn, implicit, t[n..]) == Closed(cs, rest)
    ensures Decide(d, t).calls ==
            if AllValid(d.json, cs, 0, true) && AsciiBlank(UpToEos(rest)) &&
                (implicit ==> Contains(rest, EOS)) then Some(cs) else None
  {
    hide ScanBlock, NextMarker, MarkerAt, AllValid, SkipSpace, UpToEos;
    var b := BatchBlock(d, syn, implicit);
    var r := if implicit then t[n..] else DropPrefix(t[n..], syn.toolStart);
    BlockMirrors(b, true, r, []);
    assert BatchScan(d, syn, implicit, t[n..]) == ScanBlock(b, r, []);
    assert ScanOpened(d, syn, implicit, t[n..]) == ScanBlock(b.(live := true), r, []);
    TrailingText(rest);
    EosIsOpener();
    assert SkipSpace(rest) == "" ==> !(EOS <= SkipSpace(rest));
  }

  // ----- the XML dialects -----

  predicate OpensCalls(d: Reader, t: string, n: nat) {
    IsXml(d.dialect) && n == NextMarker(d, t) && n < |t| && MarkerAt(d, t[n..]) == OpensXml
  }

  /** GLM and Qwen calls: the stream shows exactly the calls the batch reader closes, when ASCII white space follows. */
  lemma XmlStreamedIsParsed(d: Reader, t: string, n: nat, cs: seq<Call>, rest: string)
    requires OpensCalls(d, t, n) && ScanXml(d, DropPrefix(t[n..], d.xml.callStart)) == Closed(cs, rest)
    ensures Decide(d, t).calls == if AsciiBlank(UpToEos(rest)) then Some(cs) else None
    ensures ParseContent(d, t).malformed == if TrimSpace(UpToEos(rest)) == "" then None else Some(TextAfterBlock)
    ensures TrimSpace(UpToEos(rest)) == "" ==>
            ParseContent(d, t).content == TrimSpace(t[..n]) && SameCalls(d.json, ParseContent(d, t).calls, cs)
    ensures AsciiBlank(UpToEos(rest)) ==> TrimSpace(UpToEos(rest)) == ""
  {
    hide ScanXml, NextMarker, MarkerAt, SkipSpace, UpToEos, TrimSpace, CutAfter;
    TrailingText(rest);
    ReturnedNames(d.json, cs, "");
    if AsciiBlank(UpToEos(rest)) {
      BlankTrims(UpToEos(rest));
    }
  }

  /** A run of calls that is malformed for one is malformed for the other. */
  lemma XmlMalformed(d: Reader, t: string, n: nat)
    requires OpensCalls(d, t, n) && ScanXml(d, DropPrefix(t[n..], d.xml.callStart)).Bad?
    ensures Decide(d, t).calls == None && ParseContent(d, t).malformed == Some(MalformedBlock)
  {
    hide ScanXml, NextMarker, MarkerAt, SkipSpace, UpToEos, TrimSpace, CutAfter;
  }

  // ----- arguments -----

  /** A parameter as the block reader makes it: only a literal can differ, and only by decoding to something shorter. */
  predicate Decodes(p: Param) {
    if p.isString then p.live == p.text else |p.live| <= |p.text| && (|p.live| == |p.text| ==> p.live == p.text)
  }

  /** Both readers store the same fragment for the parameter. */
  predicate SameFragment(json: Json, p: Param) {
    Fragment(json, p, true) == Fragment(json, p, false)
  }

  /** A string parameter is decoded alike by both; a literal exactly when it holds no escaped close tag. */
  lemma ParamDecodes(syn: Syntax, key: string, raw: string, isString: bool, json: Json)
    ensures var p := BlockParam(syn, key, raw, isString);
            Decodes(p) && (SameFragment(json, p) <==> isString || !HasEscapedClose(raw, syn.paramEnd))
  {
    UnescapeShortens(raw, syn.paramEnd);
  }

  /** The value that survives under its key: the last one read. */
  predicate IsKept(ps: seq<Param>, i: nat) {
    i < |ps| && forall j :: i < j < |ps| ==> ps[j].key != ps[i].key
  }

  /** The same keys, each value no longer than the other's and equal to it when as long. */
  predicate Shorter(a: Args, b: Args) {
    |a| == |b| && forall i :: 0 <= i < |a| ==> a[i].0 == b[i].0 && NoLonger(a[i].1, b[i].1)
  }

  predicate NoLonger(v: string, w: string) {
    |v| <= |w| && (|v| == |w| ==> v == w)
  }

  /** Equal but for the values of some keys. */
  predicate EqualOff(a: Args, b: Args, keys: set<string>)
    requires |a| == |b|
  {
    forall i :: 0 <= i < |a| ==> a[i].0 in keys || a[i] == b[i]
  }

  lemma {:induction false} SetShorter(a: Args, b: Args, key: string, v: string, w: string)
    requires Shorter(a, b) && NoLonger(v, w)
    ensures Shorter(SetArg(a, key, v), SetArg(b, key, w))
  {
    if a != [] && a[0].0 != key {
      SetShorter(a[1..], b[1..], key, v, w);
    }
  }

  lemma {:induction false} SetOff(a: Args, b: Args, key: string, v: string, w: string, keys: set<string>)
    requires Shorter(a, b) && NoLonger(v, w) && Distinct(a)
    ensures |SetArg(a, key, v)| == |SetArg(b, key, w)|
    ensures EqualOff(SetArg(a, key, v), SetArg(b, key, w), keys) <==>
            (key in keys || v == w) && EqualOff(a, b, keys + {key})
  {
    SetShorter(a, b, key, v, w);
    var r, q := SetArg(a, key, v), SetArg(b, key, w);
    FirstOff(r, q, keys);
    if a == [] {
      assert r[1..] == [] && q[1..] == [] && r[0] == (key, v) && q[0] == (key, w);
    } else {
      FirstOff(a, b, keys + {key});
      if a[0].0 == key {
        assert r[1..] == a[1..] && q[1..] == b[1..];
        assert EqualOff(a[1..], b[1..], keys) <==> EqualOff(a[1..], b[1..], keys + {key});
      } else {
        assert r[1..] == SetArg(a[1..], key, v) && q[1..] == SetArg(b[1..], key, w);
        SetOff(a[1..], b[1..], key, v, w, keys);
      }
    }
  }

  predicate Distinct(a: Args) {
    forall i, j :: 0 <= i < j < |a| ==> a[i].0 != a[j].0
  }

  lemma FirstOff(a: Args, b: Args, keys: set<string>)
    requires |a| == |b| && a != []
    ensures EqualOff(a, b, keys) <==> (a[0].0 in keys || a[0] == b[0]) && EqualOff(a[1..], b[1..], keys)
  {
    if EqualOff(a[1..], b[1..], keys) {
      assert forall i :: 1 <= i < |a| ==> a[i] == a[1..][i - 1] && b[i] == b[1..][i - 1];
    }
  }

  lemma {:induction false} CollectDistinct(json: Json, ps: seq<Param>, live: bool)
    ensures Distinct(Collect(json, ps, live))
  {
    hide Distinct, SetArg, Fragment;
    if ps == [] {
      assert Distinct([]) by {
        NoneDistinct();
      }
    } else {
      var p := ps[|ps| - 1];
      CollectDistinct(json, ps[..|ps| - 1], live);
      SetDistinct(Collect(json, ps[..|ps| - 1], live), p.key, Fragment(json, p, live));
    }
  }

  lemma NoneDistinct()
    ensures Distinct([])
  {}

  lemma {:induction false} SetDistinct(a: Args, key: string, value: string)
    requires Distinct(a)
    ensures Distinct(SetArg(a, key, value))
    ensures forall i ::
            0 <= i < |SetArg(a, key, value)| ==>
                SetArg(a, key, value)[i].0 == key || HasKeyOf(a, SetArg(a, key, value)[i].0)
  {
    if a != [] {
      var r := SetArg(a, key, value);
      if a[0].0 == key {
        assert forall i :: 1 <= i < |a| ==> r[i] == a[i];
      } else {
        SetDistinct(a[1..], key, value);
        var q := SetArg(a[1..], key, value);
        assert forall i :: 1 <= i < |r| ==> r[i] == q[i - 1];
        forall i | 1 <= i < |r| ensures r[i].0 == key || (HasKeyOf(a, r[i].0) && r[i].0 != a[0].0) {
          if q[i - 1].0 != key {
            var j :| 0 <= j < |a[1..]| && a[1..][j].0 == q[i - 1].0;
            assert a[j + 1].0 == r[i].0;
          }
        }
        assert a[0].0 == r[0].0;
      }
    }
  }

  predicate HasKeyOf(a: Args, key: string) {
    exists j :: 0 <= j < |a| && a[j].0 == key
  }

  /** Off the given keys, the two lists agree exactly when the surviving parameters do. */
  lemma {:induction false} CollectOff(json: Json, ps: seq<Param>, keys: set<string>)
    requires forall i :: 0 <= i < |ps| ==> Decodes(ps[i])
    ensures Shorter(Collect(json, ps, true), Collect(json, ps, false))
    ensures EqualOff(Collect(json, ps, true), Collect(json, ps, false), keys) <==>
            forall i :: 0 <= i < |ps| && IsKept(ps, i) && ps[i].key !in keys ==> SameFragment(json, ps[i])
  {
    if ps != [] {
      var init, p := ps[..|ps| - 1], ps[|ps| - 1];
      CollectOff(json, init, keys + {p.key});
      CollectDistinct(json, init, true);
      var v, w := Fragment(json, p, true), Fragment(json, p, false);
      SetShorter(Collect(json, init, true), Collect(json, init, false), p.key, v, w);
      SetOff(Collect(json, init, true), Collect(json, init, false), p.key, v, w, keys);
      KeptSplits(json, ps, keys);
    }
  }

  lemma KeptSplits(json: Json, ps: seq<Param>, keys: set<string>)
    requires ps != []
    ensures var init, p := ps[..|ps| - 1], ps[|ps| - 1];
            (forall i :: 0 <= i < |ps| && IsKept(ps, i) && ps[i].key !in keys ==> SameFragment(json, ps[i])) <==>
            (p.key in keys || SameFragment(json, p))
            && (forall i ::
               0 <= i < |init| && IsKept(init, i) && init[i].key !in keys + {p.key} ==> SameFragment(json, init[i]))
  {
    hide SameFragment;
    var init, p := ps[..|ps| - 1], ps[|ps| - 1];
    assert IsKept(ps, |ps| - 1);
    forall i | 0 <= i < |init| ensures IsKept(ps, i) <==> IsKept(init, i) && init[i].key != p.key {
      assert IsKept(ps, i) ==> ps[|ps| - 1].key != ps[i].key;
    }
  }

  lemma {:induction false} EntriesShorter(json: Json, a: Args, b: Args)
    requires Shorter(a, b)
    ensures NoLonger(Entries(json, a), Entries(json, b))
    ensures Entries(json, a) == Entries(json, b) ==> a == b
  {
    hide Entry;
    if |a| == 1 {
      EntryShorter(json, a[0], b[0]);
    } else if |a| > 1 {
      var n := |a| - 1;
      EntriesShorter(json, a[..n], b[..n]);
      EntryShorter(json, a[n], b[n]);
      Joined(Entries(json, a[..n]), Entries(json, b[..n]), Entry(json, a[n]), Entry(json, b[n]));
      assert a == a[..n] + [a[n]] && b == b[..n] + [b[n]];
    }
  }

  lemma EntryShorter(json: Json, e: (string, string), f: (string, string))
    requires e.0 == f.0 && NoLonger(e.1, f.1)
    ensures NoLonger(Entry(json, e), Entry(json, f)) && (Entry(json, e) == Entry(json, f) ==> e == f)
  {
    var head := json.quote(e.0) + ": ";
    assert Entry(json, e)[|head|..] == e.1 && Entry(json, f)[|head|..] == f.1;
  }

  lemma Joined(v: string, w: string, x: string, y: string)
    requires NoLonger(v, w) && NoLonger(x, y)
    ensures NoLonger(v + ", " + x, w + ", " + y) && (v + ", " + x == w + ", " + y ==> v == w && x == y)
  {
    assert |v + ", " + x| == |v| + 2 + |x|;
  }

  /** The arguments the stream decoder reports are those the batch reader returns exactly when no surviving
      literal decodes to something else, that is, holds an escaped close tag (see `ParamDecodes`). */
  lemma ArgumentsAgree(json: Json, ps: seq<Param>)
    requires forall i :: 0 <= i < |ps| ==> Decodes(ps[i])
    ensures Arguments(json, ps, true) == Arguments(json, ps, false) <==>
            forall i :: 0 <= i < |ps| && IsKept(ps, i) ==> SameFragment(json, ps[i])
  {
    var a, b := Collect(json, ps, true), Collect(json, ps, false);
    CollectOff(json, ps, {});
    EntriesShorter(json, a, b);
    if EqualOff(a, b, {}) {
      assert a == b;
    }
  }

  // ----- the live fragments -----

  function Deltas(events: seq<Event>): string {
    if events == [] then ""
    else
      var e := events[|events| - 1];
      Deltas(events[..|events| - 1]) + if e.ArgumentsDelta? then e.text else ""
  }

  lemma {:induction false} DeltasAppend(a: seq<Event>, b: seq<Event>)
    ensures Deltas(a + b) == Deltas(a) + Deltas(b)
  {
    if b == [] {
      assert a + b == a;
    } else {
      assert (a + b)[..|a + b| - 1] == a + b[..|b| - 1];
      DeltasAppend(a, b[..|b| - 1]);
    }
  }

  /** The parameters in front of the first repeated key. */
  function Fresh(ps: seq<Param>): seq<Param> {
    if !HasDuplicate(ps) || ps == [] then ps else Fresh(ps[..|ps| - 1])
  }

  /** Repeated keys are silent until the call ends. */
  lemma {:induction false} SilentOnRepeat(json: Json, index: nat, ps: seq<Param>)
    ensures ParamEvents(json, index, ps) == ParamEvents(json, index, Fresh(ps))
    ensures !HasDuplicate(Fresh(ps)) && (ps != [] ==> Fresh(ps) != [])
  {
    if HasDuplicate(ps) {
      SilentOnRepeat(json, index, ps[..|ps| - 1]);
    }
  }

  /** The argument fragments of a call, joined. With distinct keys they spell the object the batch reader returns, and
      without parameters the empty object. With a repeated key they spell the object up to the repeat, unclosed, and
      then once more the whole object, in which the later value stands. */
  lemma FragmentsSpell(json: Json, index: nat, c: Call)
    ensures Deltas(CallEvents(json, index, c)) ==
            if c.params == [] then "{}"
            else if !HasDuplicate(c.params) then Arguments(json, c.params, false)
            else "{" + Entries(json, Collect(json, Fresh(c.params), false)) + Arguments(json, c.params, true)
  {
    assert Deltas(CallEvents(json, index, c)) == Deltas(ParamEvents(json, index, c.params)) +
           if HasDuplicate(c.params) || c.params == [] then Arguments(json, c.params, true) else "}" by {
      hide Arguments, ParamEvents, HasDuplicate, Deltas;
      var whole := Arguments(json, c.params, true);
      var last := if HasDuplicate(c.params) || c.params == [] then whole else "}";
      var opening, middle := [CallStart(index, c.name)], ParamEvents(json, index, c.params);
      DeltasAppend(opening + middle, [ArgumentsDelta(index, last), CallEnd(index, whole)]);
      DeltasAppend(opening, middle);
      EndsSpell(index, c.name, last, whole);
    }
    hide Arguments, ParamEvents, HasDuplicate, Collect, Entries, Deltas, CallEvents;
    SilentOnRepeat(json, index, c.params);
    if c.params == [] {
      NothingSpelled(json, index);
    } else {
      PrefixSpells(json, index, Fresh(c.params));
      if !HasDuplicate(c.params) {
        ObjectCloses(json, c.params);
      }
    }
  }

  lemma EndsSpell(index: nat, name: string, last: string, whole: string)
    ensures Deltas([CallStart(index, name)]) == "" &&
            Deltas([ArgumentsDelta(index, last), CallEnd(index, whole)]) == last
  {
    var closing := [ArgumentsDelta(index, last), CallEnd(index, whole)];
    assert closing[..1] == [closing[0]] && closing[..1][..0] == [];
    assert Deltas(closing) == Deltas(closing[..1]) + "";
    assert Deltas([closing[0]]) == "" + last;
  }

  lemma NothingSpelled(json: Json, index: nat)
    ensures Deltas(ParamEvents(json, index, [])) == "" && Arguments(json, [], true) == "{}" && !HasDuplicate([])
  {}

  lemma ObjectCloses(json: Json, ps: seq<Param>)
    ensures "{" + Entries(json, Collect(json, ps, false)) + "}" == Arguments(json, ps, false)
  {}

  lemma {:induction false} KeysInOrder(json: Json, ps: seq<Param>)
    requires !HasDuplicate(ps)
    ensures |Collect(json, ps, false)| == |ps| && forall i ::
            0 <= i < |ps| ==> Collect(json, ps, false)[i].0 == ps[i].key
    ensures ps != [] ==> var n := |ps| - 1;
              Collect(json, ps, false) == Collect(json, ps[..n], false) + [(ps[n].key, Fragment(json, ps[n], false))]
  {
    hide Fragment, SetArg;
    if ps != [] {
      var init, p := ps[..|ps| - 1], ps[|ps| - 1];
      assert !HasDuplicate(init);
      KeysInOrder(json, init);
      SetFresh(Collect(json, init, false), p.key, Fragment(json, p, false));
    }
  }

  lemma {:induction false} PrefixSpells(json: Json, index: nat, ps: seq<Param>)
    requires !HasDuplicate(ps) && ps != []
    ensures Deltas(ParamEvents(json, index, ps)) == "{" + Entries(json, Collect(json, ps, false))
  {
    hide Fragment, ParamEvents, Deltas, SetArg, Entries, Collect;
    var init, p := ps[..|ps| - 1], ps[|ps| - 1];
    assert ps == init + [p] && !HasDuplicate(init);
    KeysInOrder(json, ps);
    KeysInOrder(json, init);
    DeltaOfLast(json, index, init, p);
    EntriesOneMore(json, Collect(json, init, false), p.key, Fragment(json, p, false));
    if init == [] {
      NoDeltas(json, index);
      Spelled("", "", json.quote(p.key) + ": " + Fragment(json, p, false));
    } else {
      PrefixSpells(json, index, init);
      Spelled("{", Entries(json, Collect(json, init, false)), json.quote(p.key) + ": " + Fragment(json, p, false));
    }
  }

  lemma Spelled(open: string, entries: string, e: string)
    ensures "" + ("{" + e) == "{" + e
    ensures open + entries + (", " + e) == open + (entries + ", " + e)
  {}

  lemma NoDeltas(json: Json, index: nat)
    ensures Deltas(ParamEvents(json, index, [])) == ""
  {}

  lemma DeltaOfLast(json: Json, index: nat, init: seq<Param>, p: Param)
    requires !HasDuplicate(init + [p])
    ensures Deltas(ParamEvents(json, index, init + [p])) ==
            Deltas(ParamEvents(json, index, init)) +
                ((if init == [] then "{" else ", ") + json.quote(p.key) + ": " + Fragment(json, p, false))
  {
    hide HasDuplicate, Fragment;
    var ps := init + [p];
    assert ps[..|ps| - 1] == init;
    var e := ArgumentsDelta(index, (if init == [] then "{" else ", ") + json.quote(p.key) + ": " + Fragment(json, p,
            false));
    assert ParamEvents(json, index, ps) == ParamEvents(json, index, init) + [e];
    DeltasAppend(ParamEvents(json, index, init), [e]);
    assert [e][..0] == [];
  }

  lemma EntriesOneMore(json: Json, a: Args, key: string, v: string)
    ensures Entries(json, a + [(key, v)]) == if a == [] then Entry(json, (key, v))
            else Entries(json, a) + ", " + Entry(json, (key, v))
  {
    assert (a + [(key, v)])[..|a|] == a;
  }
}
