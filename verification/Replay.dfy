/** The exact-replay store (dsml/replay.go, tools.go:511-555): a sampled block is replayed byte for byte as long as
    its calls are among the most recently remembered. */
module Replay {
  import opened Text
  import opened ToolText
  import opened Markup
  import opened Calls
  import opened Grammar
  import opened Phases
  import opened Transitions
  import opened Decode
  import opened Completion
  import opened StreamVsBatch

  /** The ids from the longest remembered to the last, and the block of each. */
  datatype Store = Store(max: nat, order: seq<string>, entries: map<string, string>)

  predicate Distinct(ids: seq<string>) {
    forall i, j :: 0 <= i < j < |ids| ==> ids[i] != ids[j]
  }

  /** The list and the map hold the same ids, each once, and no empty id or block. */
  ghost predicate Sound(s: Store) {
    && Distinct(s.order) && (forall id :: id in s.order <==> id in s.entries)
    && forall id :: id in s.entries ==> id != "" && s.entries[id] != ""
  }

  ghost predicate Valid(s: Store) {
    0 < s.max && |s.order| <= s.max && Sound(s)
  }

  // ----- what is stored -----

  predicate OpensWith(table: seq<Syntax>, s: string) {
    exists i :: 0 <= i < |table| && table[i].toolStart <= s
  }

  predicate HoldsClose(table: seq<Syntax>, s: string) {
    exists i :: 0 <= i < |table| && Contains(s, table[i].toolEnd)
  }

  /** A block that opens with a wrapper of some spelling and holds a closing one. */
  predicate IsBlock(exact: string) {
    var t := TrimSpace(exact);
    (OpensWith(V4(), t) || OpensWith(V41(), t)) && (HoldsClose(V4(), t) || HoldsClose(V41(), t))
  }

  /** The ids without one of them. */
  function Without(ids: seq<string>, id: string): seq<string> {
    if ids == [] then [] else if ids[0] == id then ids[1..] else [ids[0]] + Without(ids[1..], id)
  }

  /** The last `n`. */
  function Last(ids: seq<string>, n: nat): seq<string> {
    if |ids| <= n then ids else ids[|ids| - n..]
  }

  /** A remembered block: an id already there moves to the end, a new one may push out the oldest. */
  function Put(s: Store, id: string, exact: string): Store {
    if id in s.entries then s.(order := Without(s.order, id) + [id], entries := s.entries[id := exact])
    else Trimmed'(s.(order := s.order + [id], entries := s.entries[id := exact]))
  }

  function Trimmed'(s: Store): Store
    decreases |s.order|
  {
    if |s.order| <= s.max then s
    else Trimmed'(s.(order := s.order[1..], entries := s.entries - {s.order[0]}))
  }

  class ReplayStore {
    const max: nat
    var order: seq<string>
    var entries: map<string, string>

    ghost function Now(): Store
      reads this
    {
      Store(max, order, entries)
    }

    /** `NewReplayStore`. */
    constructor (maxIds: int)
      ensures Valid(Now()) && order == [] && max == if maxIds <= 0 then 100000 else maxIds
    {
      max := if maxIds <= 0 then 100000 else maxIds;
      order, entries := [], map[];
    }

    /** `Remember`: nothing is stored without an id or a block; text that is no block is an error. */
    method Remember(id: string, exact: string) returns (ok: bool)
      requires Valid(Now())
      modifies this
      ensures Valid(Now()) && ok == (id == "" || exact == "" || IsBlock(exact))
      ensures Now() == if id == "" || exact == "" || !IsBlock(exact) then old(Now()) else Put(old(Now()), id, exact)
    {
      hide IsBlock, Valid;
      if id == "" || exact == "" {
        return true;
      }
      if !IsBlock(exact) {
        return false;
      }
      ok := true;
      PutIsValid(Now(), id, exact);
      if id in entries {
        entries := entries[id := exact];
        order := Without(order, id) + [id];
        return;
      }
      order := order + [id];
      entries := entries[id := exact];
      ghost var pushed := Now();
      while |order| > max
        invariant Trimmed'(Now()) == Trimmed'(pushed)
        decreases |order|
      {
        entries := entries - {order[0]};
        order := order[1..];
      }
    }

    /** `Lookup`. */
    method Lookup(id: string) returns (exact: Option<string>)
      ensures exact == if id != "" && id in entries then Some(entries[id]) else None
    {
      exact := if id != "" && id in entries then Some(entries[id]) else None;
    }

    /** `LookupBlock`: one block common to all the ids. */
    method LookupBlock(ids: seq<string>) returns (exact: Option<string>)
      requires Valid(Now())
      ensures exact == CommonBlock(Now(), ids)
    {
      if ids == [] {
        return None;
      }
      var found := "";
      var i := 0;
      while i < |ids|
        invariant 0 <= i <= |ids|
        invariant i == 0 ==> found == ""
        invariant i > 0 ==> ids[0] in entries && found == entries[ids[0]] && found != ""
        invariant forall k :: 0 <= k < i ==> ids[k] in entries && entries[ids[k]] == found
      {
        var id := ids[i];
        if id == "" || id !in entries {
          return None;
        }
        if found == "" {
          found := entries[id];
        } else if found != entries[id] {
          return None;
        }
        i := i + 1;
      }
      exact := if found != "" then Some(found) else None;
    }
  }

  /** Every id has the block. */
  predicate AllHold(s: Store, ids: seq<string>, exact: string) {
    forall i :: 0 <= i < |ids| ==> ids[i] in s.entries && s.entries[ids[i]] == exact
  }

  function CommonBlock(s: Store, ids: seq<string>): Option<string> {
    if ids == [] || ids[0] !in s.entries || !AllHold(s, ids, s.entries[ids[0]]) then None else Some(s.entries[ids[0]])
  }

  // ----- the store stays sound -----

  lemma PutIsValid(s: Store, id: string, exact: string)
    requires Valid(s) && id != "" && exact != ""
    ensures Valid(Put(s, id, exact))
  {
    hide Trimmed', Sound;
    if id in s.entries {
      MovedIsSound(s, id, exact);
      WithoutIs(s.order, id);
    } else {
      PutFresh(s, id, exact);
    }
  }

  lemma MovedIsSound(s: Store, id: string, exact: string)
    requires Sound(s) && id in s.entries && exact != ""
    ensures id in s.order && Sound(s.(order := Without(s.order, id) + [id], entries := s.entries[id := exact]))
    ensures |Without(s.order, id)| == |s.order| - 1
  {
    hide Without;
    WithoutIs(s.order, id);
  }

  lemma {:induction false} WithoutIs(ids: seq<string>, id: string)
    requires id in ids
    ensures |Without(ids, id)| == |ids| - 1
    ensures Distinct(ids) ==>
              var r := Without(ids, id);
              Distinct(r + [id]) && forall k :: k in r <==> k in ids && k != id
  {
    hide Distinct;
    if ids[0] == id {
      FirstApart(ids);
      assert ids == [id] + ids[1..];
      AppendApart(ids[1..], id);
    } else {
      var r := Without(ids[1..], id);
      assert ids == [ids[0]] + ids[1..];
      WithoutIs(ids[1..], id);
      FirstApart(ids);
      assert ([ids[0]] + r) + [id] == [ids[0]] + (r + [id]);
      FirstApart([ids[0]] + (r + [id]));
      assert ([ids[0]] + (r + [id]))[1..] == r + [id];
    }
  }

  lemma FirstApart(ids: seq<string>)
    requires ids != []
    ensures Distinct(ids) <==> ids[0] !in ids[1..] && Distinct(ids[1..])
  {
    assert forall i :: 0 <= i < |ids| - 1 ==> ids[1..][i] == ids[i + 1];
    if ids[0] !in ids[1..] && Distinct(ids[1..]) {
      forall i, j | 0 <= i < j < |ids| ensures ids[i] != ids[j] {
        assert ids[j] == ids[1..][j - 1];
      }
    }
  }

  lemma AppendApart(ids: seq<string>, id: string)
    ensures Distinct(ids + [id]) <==> id !in ids && Distinct(ids)
  {
    var all := ids + [id];
    assert forall i :: 0 <= i < |ids| ==> all[i] == ids[i];
    if Distinct(all) {
      assert forall i :: 0 <= i < |ids| ==> all[i] != all[|ids|];
    }
  }

  function Pushed(s: Store, id: string, exact: string): Store {
    s.(order := s.order + [id], entries := s.entries[id := exact])
  }

  /** Without its oldest id. */
  function Dropped(s: Store): Store
    requires s.order != []
  {
    s.(order := s.order[1..], entries := s.entries - {s.order[0]})
  }

  lemma DroppedIsSound(s: Store)
    requires Sound(s) && s.order != []
    ensures Sound(Dropped(s))
  {
    hide Distinct;
    FirstApart(s.order);
    assert s.order == [s.order[0]] + s.order[1..];
  }

  /** A new id goes to the end; if the store was full the oldest one goes. */
  lemma PutFresh(s: Store, id: string, exact: string)
    requires Valid(s) && id !in s.entries && id != "" && exact != ""
    ensures var t := Put(s, id, exact);
            && Valid(t) && t.max == s.max && t.order == Last(s.order + [id], s.max)
            && (id in t.entries ==> t.entries[id] == exact)
            && forall k :: k in t.entries && k != id ==> k in s.entries && t.entries[k] == s.entries[k]
  {
    assert Sound(Pushed(s, id, exact)) by {
      AppendApart(s.order, id);
    }
    hide Trimmed', Sound;
    DroppedIsSound(Pushed(s, id, exact));
    assert Trimmed'(Pushed(s, id, exact)) == if |Pushed(s, id, exact).order| <= Pushed(s, id, exact).max then
           Pushed(s, id, exact) else Dropped(Pushed(s, id, exact));
  }

  // ----- replay until full -----

  function PutEach(s: Store, news: seq<(string, string)>): Store {
    if news == [] then s
    else
      var n := |news| - 1;
      Put(PutEach(s, news[..n]), news[n].0, news[n].1)
  }

  function Ids(news: seq<(string, string)>): (r: seq<string>)
    ensures |r| == |news|
  {
    seq(|news|, i requires 0 <= i < |news| => news[i].0)
  }

  /** Ids of their own, new to the store, with blocks. */
  predicate AllFresh(s: Store, news: seq<(string, string)>) {
    Distinct(Ids(news)) && forall i :: 0 <= i < |news| ==> news[i].0 != "" && news[i].1 != "" && news[i].0 !in s.entries
  }

  /** The store then holds the last of all ids, each new one with its block. */
  lemma {:induction false} PutEachIs(s: Store, news: seq<(string, string)>)
    requires Valid(s) && AllFresh(s, news)
    ensures var t := PutEach(s, news);
            && Valid(t) && t.max == s.max && t.order == Last(s.order + Ids(news), s.max)
            && Keeps(s, t, news)
  {
    hide Put, Sound, AllFresh, Keeps, Last;
    if news == [] {
      KeepsNothing(s);
      assert s.order + Ids(news) == s.order;
      LastIsAll(s.order, s.max);
    } else {
      var n := |news| - 1;
      var init, last := news[..n], news[n];
      FreshOneByOne(s, news);
      PutEachIs(s, init);
      var t := PutEach(s, init);
      NotYetThere(s, t, init, last.0);
      PutFresh(t, last.0, last.1);
      KeepsOneMore(s, t, Put(t, last.0, last.1), init, last);
      LastOfLast(s.order + Ids(init), last.0, s.max);
      assert news == init + [last];
      assert s.order + Ids(news) == s.order + Ids(init) + [last.0];
    }
  }

  /** What the store `t` holds it held before or got from `news`. */
  ghost predicate Keeps(s: Store, t: Store, news: seq<(string, string)>) {
    forall k :: k in t.entries ==> (k in s.entries && k !in Ids(news)) || (k, t.entries[k]) in news
  }

  lemma KeepsNothing(s: Store)
    ensures Keeps(s, s, [])
  {}

  lemma FreshOneByOne(s: Store, news: seq<(string, string)>)
    requires AllFresh(s, news) && news != []
    ensures var n := |news| - 1;
            && AllFresh(s, news[..n]) && news[n].0 != "" && news[n].1 != "" && news[n].0 !in s.entries
            && news[n].0 !in Ids(news[..n]) && Ids(news) == Ids(news[..n]) + [news[n].0]
  {
    var n := |news| - 1;
    assert Ids(news) == Ids(news[..n]) + [news[n].0];
    AppendApart(Ids(news[..n]), news[n].0);
  }

  lemma NotYetThere(s: Store, t: Store, init: seq<(string, string)>, id: string)
    requires Keeps(s, t, init)
    ensures id in t.entries ==> id in s.entries || id in Ids(init)
  {
    if id in t.entries && id !in s.entries {
      var i :| 0 <= i < |init| && init[i] == (id, t.entries[id]);
      assert Ids(init)[i] == id;
    }
  }

  lemma KeepsOneMore(s: Store, t: Store, u: Store, init: seq<(string, string)>, last: (string, string))
    requires Keeps(s, t, init) && last.0 !in s.entries && (last.0 in u.entries ==> u.entries[last.0] == last.1)
    requires forall k :: k in u.entries && k != last.0 ==> k in t.entries && u.entries[k] == t.entries[k]
    ensures Keeps(s, u, init + [last])
  {
    assert Ids(init + [last]) == Ids(init) + [last.0];
    hide Ids;
    forall k | k in u.entries
      ensures (k in s.entries && k !in Ids(init + [last])) || (k, u.entries[k]) in init + [last]
    {
      assert last in init + [last];
    }
  }

  lemma LastIsAll(a: seq<string>, n: nat)
    requires |a| <= n
    ensures Last(a, n) == a
  {}

  lemma LastOfLast(a: seq<string>, x: string, n: nat)
    requires n > 0
    ensures Last(Last(a, n) + [x], n) == Last(a + [x], n)
  {}

  /** The calls of one block: every id with the same text. */
  function SameBlock(ids: seq<string>, exact: string): (r: seq<(string, string)>)
    ensures |r| == |ids|
  {
    seq(|ids|, i requires 0 <= i < |ids| => (ids[i], exact))
  }

  /** A block is replayed exactly as long as its calls and the ids remembered since fit the store together; one id
      more and its first call is forgotten. */
  lemma ReplayedUntilFull(s: Store, ids: seq<string>, exact: string, since: seq<(string, string)>)
    requires Valid(s) && ids != [] && AllFresh(s, SameBlock(ids, exact) + since)
    ensures CommonBlock(PutEach(s, SameBlock(ids, exact) + since), ids) == if |ids| + |since| <= s.max then
            Some(exact) else None
  {
    hide PutEach, Put, Sound, Keeps, Last, AllFresh, Ids, SameBlock;
    var news := SameBlock(ids, exact) + since;
    PutEachIs(s, news);
    var t := PutEach(s, news);
    var all := s.order + Ids(news);
    BlockFirst(ids, exact, since);
    if |ids| + |since| <= s.max {
      forall i | 0 <= i < |ids| ensures ids[i] in t.entries && t.entries[ids[i]] == exact {
        InLast(all, s.max, |s.order| + i);
        HeldIfListed(t, ids[i]);
        HeldAsPut(s, t, news, i);
      }
    } else {
      AllDistinct(s, news);
      NotInLast(all, s.max, |s.order|);
      HeldIfListed(t, ids[0]);
    }
  }

  lemma BlockFirst(ids: seq<string>, exact: string, since: seq<(string, string)>)
    ensures var news := SameBlock(ids, exact) + since;
            forall i :: 0 <= i < |ids| ==> news[i] == (ids[i], exact) && Ids(news)[i] == ids[i]
  {}

  lemma HeldIfListed(t: Store, id: string)
    requires Sound(t)
    ensures id in t.order <==> id in t.entries
  {
    hide Distinct;
  }

  lemma HeldAsPut(s: Store, t: Store, news: seq<(string, string)>, i: nat)
    requires AllFresh(s, news) && Keeps(s, t, news) && i < |news| && news[i].0 in t.entries
    ensures t.entries[news[i].0] == news[i].1
  {
    var id := news[i].0;
    assert Ids(news)[i] == id;
    var j :| 0 <= j < |news| && news[j] == (id, t.entries[id]);
    assert Ids(news)[j] == id;
  }

  lemma InLast(a: seq<string>, n: nat, i: nat)
    requires i < |a| && |a| <= i + n
    ensures a[i] in Last(a, n)
  {
    if |a| > n {
      assert a[|a| - n..][i - (|a| - n)] == a[i];
    }
  }

  lemma NotInLast(a: seq<string>, n: nat, i: nat)
    requires Distinct(a) && i + n < |a|
    ensures a[i] !in Last(a, n)
  {}

  lemma AllDistinct(s: Store, news: seq<(string, string)>)
    requires Sound(s) && AllFresh(s, news)
    ensures Distinct(s.order + Ids(news))
  {
    var a, b := s.order, Ids(news);
    forall i, j | 0 <= i < j < |a + b| ensures (a + b)[i] != (a + b)[j] {
      if i < |a| && j >= |a| {
        assert a[i] in s.entries && (a + b)[j] == news[j - |a|].0;
      }
    }
  }

  // ----- every block the reader returns is stored -----

  /** `r` ends in the tag and then `rest`. */
  predicate ClosesWith(r: string, tag: string, rest: string) {
    |tag| + |rest| <= |r| && r[|r| - |rest| - |tag|..] == tag + rest
  }

  lemma ClosesBehind(r: string, n: nat, tag: string, rest: string)
    requires n <= |r| && ClosesWith(r[n..], tag, rest)
    ensures ClosesWith(r, tag, rest)
  {
    assert r[n..][|r| - n - |rest| - |tag|..] == r[|r| - |rest| - |tag|..];
  }

  /** An explicit block that closes ends in the wrapper's close tag. */
  lemma {:induction false} BlockCloses(b: Block, r: string, calls: seq<Call>)
    requires !b.implicit
    ensures ScanBlock(b, r, calls).Closed? ==> ClosesWith(r, b.syn.toolEnd, ScanBlock(b, r, calls).rest)
    decreases |r|, 4
  {
    hide ScanBody, InvokeHeader, SkipSpace, OpensTag, WellFormed, ClosesWith;
    var t := SkipSpace(r);
    var k := |r| - |t|;
    SkipSpaceIs(r);
    assert ScanBlock(b, r, calls) == BlockAt(b, t, calls);
    if b.syn.toolEnd <= t {
      ClosesHere(t, b.syn.toolEnd);
      ClosesBehind(r, k, b.syn.toolEnd, t[|b.syn.toolEnd|..]);
    } else if OpensTag(t, b.syn.invokeStart) {
      match InvokeHeader(t)
      case None =>
        assert ScanInvoke(b, t, calls) == Bad(t);
      case Some(h) =>
        HeaderIsBehind(t);
        BodyCloses(b, h.rest, calls, h.name, []);
        assert ScanInvoke(b, t, calls) == ScanBody(b, h.rest, calls, h.name, []);
        if ScanInvoke(b, t, calls).Closed? {
          var rest := ScanInvoke(b, t, calls).rest;
          ClosesBehind(t, |t| - |h.rest|, b.syn.toolEnd, rest);
          ClosesBehind(r, k, b.syn.toolEnd, rest);
        }
    }
  }

  lemma ClosesHere(t: string, tag: string)
    requires tag <= t
    ensures ClosesWith(t, tag, t[|tag|..])
  {
    assert t == tag + t[|tag|..];
  }

  lemma HeaderIsBehind(t: string)
    ensures InvokeHeader(t).Some? ==> var rest := InvokeHeader(t).value.rest; |rest| <= |t| && rest == t[|t| - |rest|..]
    ensures ParamHeader(t).Some? ==> var rest := ParamHeader(t).value.rest; |rest| <= |t| && rest == t[|t| - |rest|..]
  {
    hide Attr;
  }

  lemma {:induction false} BodyCloses(b: Block, r: string, calls: seq<Call>, name: string, ps: seq<Param>)
    requires !b.implicit
    ensures ScanBody(b, r, calls, name, ps).Closed? ==>
            ClosesWith(r, b.syn.toolEnd, ScanBody(b, r, calls, name, ps).rest)
    decreases |r|, 3
  {
    hide ScanBlock, ScanValue, ParamHeader, SkipSpace, OpensTag, Arguments, ClosesWith, WellFormed;
    var t := SkipSpace(r);
    var k := |r| - |t|;
    SkipSpaceIs(r);
    TagsNonEmpty(b.syn);
    var scan := ScanBody(b, r, calls, name, ps);
    assert scan == BodyAt(b, t, calls, name, ps);
    BodyAtCloses(b, t, calls, name, ps);
    if scan.Closed? {
      ClosesBehind(r, k, b.syn.toolEnd, scan.rest);
    }
  }

  lemma {:induction false} BodyAtCloses(b: Block, t: string, calls: seq<Call>, name: string, ps: seq<Param>)
    requires !b.implicit
    ensures BodyAt(b, t, calls, name, ps).Closed? ==> ClosesWith(t, b.syn.toolEnd, BodyAt(b, t, calls, name, ps).rest)
    decreases |t|, 2
  {
    hide ScanBlock, ScanParam, ParamHeader, OpensTag, ClosesWith, WellFormed;
    TagsNonEmpty(b.syn);
    if b.syn.invokeEnd <= t {
      var u := t[|b.syn.invokeEnd|..];
      BlockCloses(b, u, calls + [Call(name, ps)]);
      var scan := ScanBlock(b, u, calls + [Call(name, ps)]);
      if scan.Closed? {
        ClosesBehind(t, |b.syn.invokeEnd|, b.syn.toolEnd, scan.rest);
      }
    } else {
      ParamCloses(b, t, calls, name, ps);
    }
  }

  lemma {:induction false} ParamCloses(b: Block, t: string, calls: seq<Call>, name: string, ps: seq<Param>)
    requires !b.implicit
    ensures ScanParam(b, t, calls, name, ps).Closed? ==>
            ClosesWith(t, b.syn.toolEnd, ScanParam(b, t, calls, name, ps).rest)
    decreases |t|, 1
  {
    hide ScanValue, ParamHeader, ClosesWith, WellFormed;
    var scan := ScanParam(b, t, calls, name, ps);
    if ParamHeader(t).Some? {
      var h := ParamHeader(t).value;
      HeaderIsBehind(t);
      ValueCloses(b, h, calls, name, ps);
      if scan.Closed? {
        ClosesBehind(t, |t| - |h.rest|, b.syn.toolEnd, scan.rest);
      }
    }
  }

  lemma {:induction false} ValueCloses(b: Block, h: Header, calls: seq<Call>, name: string, ps: seq<Param>)
    requires !b.implicit
    ensures var scan := ScanValue(b, h.rest, calls, name, ps, h.name, h.isString);
            scan.Closed? ==> ClosesWith(h.rest, b.syn.toolEnd, scan.rest)
    decreases |h.rest|, 4
  {
    hide ScanBody, WellFormed, Index, BlockParam, ClosesWith;
    TagsNonEmpty(b.syn);
    var end := Index(h.rest, b.syn.paramEnd);
    if end >= 0 {
      var n := end + |b.syn.paramEnd|;
      var qs := ps + [BlockParam(b.syn, h.name, h.rest[..end], h.isString)];
      BodyCloses(b, h.rest[n..], calls, name, qs);
      var scan := ScanBody(b, h.rest[n..], calls, name, qs);
      if scan.Closed? {
        ClosesBehind(h.rest, n, b.syn.toolEnd, scan.rest);
      }
    }
  }

  /** What the model sampled: from the line breaks in front of the wrapper to the end of its close tag. */
  function Sampled(d: Reader, t: string, n: nat, syn: Syntax): string
    requires n < |t|
  {
    var scan := BatchScan(d, syn, false, t[n..]);
    if scan.Closed? && RawStart(t, n) + |scan.rest| <= |t| then t[RawStart(t, n)..|t| - |scan.rest|] else ""
  }

  /** Every call of a wrapped block carries the sampled text, which the store accepts: remembering never fails. */
  lemma ParsedBlockIsStored(d: Reader, t: string, n: nat, syn: Syntax)
    requires OpensBlock(d, t, n, syn, false) && syn in d.table && (d.table == V4() || d.table == V41())
    ensures n < |t|
    ensures var m := ParseContent(d, t);
            m.malformed == None ==>
              IsBlock(Sampled(d, t, n, syn)) && forall i ::
                  0 <= i < |m.calls| ==> m.calls[i].exact == Sampled(d, t, n, syn)
  {
    hide OpensBlock, ParseContent, IsBlock, AllReturned, ScanBlock, V4, V41, WellFormed, UpToEos, TrimSpace, MarkerAt,
         NextMarker, RawStart;
    StartsAt(d, t, n, syn);
    var scan := BatchScan(d, syn, false, t[n..]);
    WrappedMessage(d, t, n, syn);
    if scan.Closed? {
      var raw := RawStart(t, n);
      BlockCloses(BatchBlock(d, syn, false), DropPrefix(t[n..], syn.toolStart), []);
      ExactIsBlock(d, t, n, raw, syn, scan.rest);
      SameExact(d.json, scan.calls, t[raw..|t| - |scan.rest|]);
    }
  }

  /** The calls of a message under their ids. */
  function Named(ids: seq<string>, calls: seq<ToolCall>): (r: seq<(string, string)>)
    requires |ids| == |calls|
  {
    seq(|ids|, i requires 0 <= i < |ids| => (ids[i], calls[i].exact))
  }

  /** A wrapped block that parses is written back byte for byte, instead of printed anew, exactly as long as its
      calls and the ids remembered since fit the store. */
  lemma SampledIsReplayed(d: Reader, t: string, n: nat, syn: Syntax, s: Store, ids: seq<string>, since: seq<(string,
          string)>)
    requires OpensBlock(d, t, n, syn, false) && syn in d.table && (d.table == V4() || d.table == V41()) && Valid(s) &&
             ids != []
    requires var m := ParseContent(d, t);
             m.malformed == None && |ids| == |m.calls| && AllFresh(s, Named(ids, m.calls) + since)
    ensures n < |t| && IsBlock(Sampled(d, t, n, syn))
    ensures CommonBlock(PutEach(s, Named(ids, ParseContent(d, t).calls) + since), ids) ==
            if |ids| + |since| <= s.max then Some(Sampled(d, t, n, syn)) else None
  {
    hide OpensBlock, ParseContent, IsBlock, Sampled, V4, V41, Valid, AllFresh, CommonBlock, PutEach;
    ParsedBlockIsStored(d, t, n, syn);
    var exact := Sampled(d, t, n, syn);
    assert Named(ids, ParseContent(d, t).calls) == SameBlock(ids, exact);
    ReplayedUntilFull(s, ids, exact, since);
  }

  lemma StartsAt(d: Reader, t: string, n: nat, syn: Syntax)
    requires OpensBlock(d, t, n, syn, false)
    ensures n < |t| && syn.toolStart <= t[n..] && RawStart(t, n) <= n &&
            (RawStart(t, n) == n || (RawStart(t, n) + 2 == n && t[n - 2..n] == "\n\n"))
  {
    hide NextMarker;
    StartedBy(d.table, t[n..]);
  }

  lemma {:induction false} StartedBy(table: seq<Syntax>, s: string)
    ensures ToolStartAt(table, s).Opens? ==> ToolStartAt(table, s).syn.toolStart <= s && !ToolStartAt(table, s).implicit
    ensures InvokeAt(table, s).Opens? ==> InvokeAt(table, s).implicit
  {
    if table != [] {
      StartedBy(table[1..], s);
    }
  }

  lemma WrappedMessage(d: Reader, t: string, n: nat, syn: Syntax)
    requires OpensBlock(d, t, n, syn, false)
    ensures n < |t|
    ensures var m, scan := ParseContent(d, t), BatchScan(d, syn, false, t[n..]);
            && (scan.Bad? ==> m.malformed != None)
            && (m.malformed == None ==>
                  scan.Closed? && RawStart(t, n) + |scan.rest| <= |t| &&
                      m.calls == AllReturned(d.json, scan.calls, t[RawStart(t, n)..|t| - |scan.rest|]))
  {
    hide NextMarker, MarkerAt, TrimSpace, UpToEos, AllReturned, BatchScan;
  }

  lemma {:induction false} SameExact(json: Json, calls: seq<Call>, exact: string)
    ensures forall i :: 0 <= i < |calls| ==> AllReturned(json, calls, exact)[i].exact == exact
  {
    hide Arguments;
    if calls != [] {
      SameExact(json, calls[..|calls| - 1], exact);
    }
  }

  /** From the line breaks in front of the wrapper to the end of its close tag. */
  lemma ExactIsBlock(d: Reader, t: string, n: nat, raw: nat, syn: Syntax, rest: string)
    requires n < |t| && syn.toolStart <= t[n..] && (raw == n || (raw + 2 == n && t[n - 2..n] == "\n\n"))
    requires ClosesWith(DropPrefix(t[n..], syn.toolStart), syn.toolEnd, rest)
    requires syn in d.table && (d.table == V4() || d.table == V41())
    ensures raw + |rest| <= |t| && IsBlock(t[raw..|t| - |rest|])
  {
    hide V4, V41, WellFormed, TrimSpace, Contains, ClosesWith;
    TagsNonEmpty(syn);
    BlockText'(t, n, syn, rest);
    var u := t[n..|t| - |rest|];
    TrimsToBlock(u, syn);
    if raw != n {
      BreaksInFront(t, n, |t| - |rest|);
      assert TrimSpace("\n\n" + u) == TrimSpace(u) by {
        BreakTrimmed("\n" + u);
        BreakTrimmed(u);
        assert "\n\n" + u == "\n" + ("\n" + u);
      }
    }
    var i :| 0 <= i < |d.table| && d.table[i] == syn;
    assert OpensWith(d.table, u) && HoldsClose(d.table, u);
  }

  lemma BreaksInFront(t: string, n: nat, end: nat)
    requires 2 <= n <= end <= |t| && t[n - 2..n] == "\n\n"
    ensures t[n - 2..end] == "\n\n" + t[n..end]
  {
    assert t[n - 2..end] == t[n - 2..n] + t[n..end];
  }

  lemma BlockText'(t: string, n: nat, syn: Syntax, rest: string)
    requires n < |t| && syn.toolStart <= t[n..] && ClosesWith(DropPrefix(t[n..], syn.toolStart), syn.toolEnd, rest)
    ensures n + |syn.toolStart| + |syn.toolEnd| + |rest| <= |t|
    ensures var u := t[n..|t| - |rest|]; syn.toolStart <= u && syn.toolEnd == u[|u| - |syn.toolEnd|..]
  {
    hide WellFormed;
    var r := t[n..];
    var body := r[|syn.toolStart|..];
    var u := t[n..|t| - |rest|];
    var k := |body| - |rest| - |syn.toolEnd|;
    assert body[k..][..|syn.toolEnd|] == syn.toolEnd;
    assert u == r[..|r| - |rest|];
    assert u[|u| - |syn.toolEnd|..] == body[k..][..|syn.toolEnd|];
    assert u[..|syn.toolStart|] == syn.toolStart;
  }

  /** Text from a tag to a tag has no white space to trim. */
  lemma TrimsToBlock(u: string, syn: Syntax)
    requires syn.toolStart <= u && |syn.toolEnd| <= |u| && syn.toolEnd == u[|u| - |syn.toolEnd|..]
    requires syn in V4() || syn in V41()
    ensures TrimSpace(u) == u && u[0] == '<' && Contains(u, syn.toolEnd)
  {
    hide Index, V4, V41, WellFormed, TrimSpace;
    TagsNonEmpty(syn);
    OpensWithAngle(syn);
    EndsWithAngle(syn);
    assert u[|u| - |syn.toolEnd|..][|syn.toolEnd| - 1] == u[|u| - 1];
    assert TrimSpace(u) == u by {
      TrimmedStays(u);
    }
    IndexIsFirst(u, syn.toolEnd);
  }

  lemma EndsWithAngle(syn: Syntax)
    requires syn in V4() || syn in V41()
    ensures syn.toolEnd != "" && syn.toolEnd[|syn.toolEnd| - 1] == '>'
  {
    hide WellFormed;
  }

  lemma OpensWithAngle(syn: Syntax)
    ensures syn.toolStart != "" && syn.toolStart[0] == '<'
  {}

  lemma BreakTrimmed(u: string)
    ensures TrimSpace("\n" + u) == TrimSpace(u)
  {
    hide TrimRight;
    assert ("\n" + u)[1..] == u;
  }
}
