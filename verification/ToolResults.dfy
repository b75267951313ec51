/** Tool results in the order of their calls (tools.go:1126-1158). */
module ToolResults {
  /** A message, as far as the order depends on it: its role, the ids of its calls, the call it answers, its text. */
  datatype Message = Message(role: string, calls: seq<string>, answers: string, text: string)

  const TOOL := "tool"
  const ASSISTANT := "assistant"

  type Ranks = map<string, nat>

  /** The position of each call, the last one if an id repeats. */
  function RanksOf(calls: seq<string>): Ranks {
    if calls == [] then map[]
    else
      var n := |calls| - 1;
      var ranks := RanksOf(calls[..n]);
      if calls[n] == "" then ranks else ranks[calls[n] := n]
  }

  /** An unknown call ranks with the first. */
  function Rank(ranks: Ranks, m: Message): nat {
    if m.answers in ranks then ranks[m.answers] else 0
  }

  function RanksAfter(ranks: Ranks, m: Message): Ranks {
    if m.role == ASSISTANT && m.calls != [] then RanksOf(m.calls) else ranks
  }

  /** Behind everything of the same or a lower rank. */
  function Inserted(ranks: Ranks, s: seq<Message>, m: Message): (r: seq<Message>)
    ensures |r| == |s| + 1
  {
    if s == [] then [m]
    else
      var n := |s| - 1;
      if Rank(ranks, s[n]) > Rank(ranks, m) then Inserted(ranks, s[..n], m) + [s[n]] else s + [m]
  }

  /** A run, stably sorted. */
  function Sorted(ranks: Ranks, run: seq<Message>): (r: seq<Message>)
    ensures |r| == |run|
  {
    if run == [] then [] else Inserted(ranks, Sorted(ranks, run[..|run| - 1]), run[|run| - 1])
  }

  /** How many tool results `h` begins with. */
  function RunLength(h: seq<Message>): (n: nat)
    ensures n <= |h| && (forall i :: 0 <= i < n ==> h[i].role == TOOL) && (n < |h| ==> h[n].role != TOOL)
  {
    if h == [] || h[0].role != TOOL then 0 else 1 + RunLength(h[1..])
  }

  /** Every run sorted by the calls of the assistant turn before it. */
  function Ordered(ranks: Ranks, h: seq<Message>): (r: seq<Message>)
    ensures |r| == |h|
    decreases |h|
  {
    if h == [] then []
    else if h[0].role != TOOL then [h[0]] + Ordered(RanksAfter(ranks, h[0]), h[1..])
    else Sorted(ranks, h[..RunLength(h)]) + Ordered(ranks, h[RunLength(h)..])
  }

  // ----- the loops -----

  /** The stable sort of a run, in place. */
  method SortRun(out: array<Message>, start: nat, end: nat, ranks: Ranks)
    requires start <= end <= out.Length
    modifies out
    ensures out[..] == old(out[..start]) + Sorted(ranks, old(out[start..end])) + old(out[end..])
  {
    hide Sorted, Inserted, Rank;
    ghost var was := out[..];
    var i := start;
    assert Sorted(ranks, was[start..start]) == [];
    while i < end
      invariant start <= i <= end
      invariant out[..] == was[..start] + Sorted(ranks, was[start..i]) + was[i..]
    {
      ghost var sorted := Sorted(ranks, was[start..i]);
      InsertOne(out, start, i, ranks, was[..start], sorted, was[i + 1..]);
      OneMoreSorted(ranks, was, start, i);
      i := i + 1;
    }
  }

  /** Moves the message at `i` in front of the sorted ones of a higher rank. */
  method InsertOne(out: array<Message>, start: nat, i: nat, ranks: Ranks, ghost before: seq<Message>,
          ghost sorted: seq<Message>, ghost after: seq<Message>)
    requires start <= i < out.Length && |before| == start && |sorted| == i - start
    requires out[..] == before + sorted + [out[i]] + after
    modifies out
    ensures out[..] == before + Inserted(ranks, sorted, old(out[i])) + after
  {
    hide Inserted, Rank, With;
    var m := out[i];
    var j := i;
    WholeAt(out[..], before, sorted, m, after);
    assert sorted[..|sorted|] == sorted && Inserted(ranks, sorted, m) + [] == Inserted(ranks, sorted, m);
    while j > start && Rank(ranks, out[j - 1]) > Rank(ranks, m)
      invariant start <= j <= i
      invariant out[..] == With(before, sorted, j - start, out[j], after)
      invariant Inserted(ranks, sorted, m) == Inserted(ranks, sorted[..j - start], m) + sorted[j - start..]
    {
      Shift(out[..], before, sorted, j - start, out[j], after);
      PassOne(ranks, sorted, j - start, m);
      ghost var was := out[..];
      out[j] := out[j - 1];
      assert out[..] == was[j := was[j - 1]];
      j := j - 1;
    }
    ghost var k := j - start;
    Ends(out[..], before, sorted, k, out[j], m, after);
    StopHere(ranks, sorted[..k], m);
    ghost var was := out[..];
    out[j] := m;
    assert out[..] == was[j := m];
  }

  /** A sorted run with one more place in front of `k`. */
  function With(before: seq<Message>, sorted: seq<Message>, k: nat, x: Message, after: seq<Message>): seq<Message>
    requires k <= |sorted|
  {
    before + (sorted[..k] + [x] + sorted[k..]) + after
  }

  lemma WholeAt(whole: seq<Message>, before: seq<Message>, sorted: seq<Message>, m: Message, after: seq<Message>)
    requires whole == before + sorted + [m] + after
    ensures whole == With(before, sorted, |sorted|, m, after)
  {
    assert sorted[..|sorted|] == sorted && sorted[|sorted|..] == [];
    assert before + (sorted + [m] + []) + after == before + sorted + [m] + after;
  }

  lemma Shift(whole: seq<Message>, before: seq<Message>, sorted: seq<Message>, k: nat, x: Message, after: seq<Message>)
    requires 0 < k <= |sorted| && whole == With(before, sorted, k, x, after)
    ensures var j := |before| + k;
            && j < |whole| && whole[j - 1] == sorted[k - 1]
            && whole[j := whole[j - 1]] == With(before, sorted, k - 1, whole[j - 1], after)
  {}

  lemma Ends(whole: seq<Message>, before: seq<Message>, sorted: seq<Message>, k: nat, x: Message, m: Message,
          after: seq<Message>)
    requires k <= |sorted| && whole == With(before, sorted, k, x, after)
    ensures var j := |before| + k;
            && j < |whole| && (k > 0 ==> whole[j - 1] == sorted[k - 1])
            && whole[j := m] == before + (sorted[..k] + [m] + sorted[k..]) + after
  {}

  lemma PassOne(ranks: Ranks, sorted: seq<Message>, k: nat, m: Message)
    requires 0 < k <= |sorted| && Rank(ranks, sorted[k - 1]) > Rank(ranks, m)
    ensures Inserted(ranks, sorted[..k], m) + sorted[k..] == Inserted(ranks, sorted[..k - 1], m) + sorted[k - 1..]
  {
    hide Rank;
    assert sorted[..k][..k - 1] == sorted[..k - 1];
  }

  lemma StopHere(ranks: Ranks, s: seq<Message>, m: Message)
    requires s == [] || Rank(ranks, s[|s| - 1]) <= Rank(ranks, m)
    ensures Inserted(ranks, s, m) == s + [m]
  {
    hide Rank;
  }

  lemma OneMoreSorted(ranks: Ranks, was: seq<Message>, start: nat, i: nat)
    requires start <= i < |was|
    ensures Sorted(ranks, was[start..i + 1]) == Inserted(ranks, Sorted(ranks, was[start..i]), was[i])
  {
    hide Inserted;
    assert was[start..i + 1][..i - start] == was[start..i];
  }

  /** `orderToolResultsByCall`. */
  method OrderToolResultsByCall(history: seq<Message>) returns (r: seq<Message>)
    ensures r == Ordered(map[], history)
  {
    hide Sorted, RanksOf, Ordered, RunLength, RanksAfter;
    var out := new Message[|history|](i requires 0 <= i < |history| => history[i]);
    var ranks: Ranks := map[];
    ghost var whole := Ordered(ranks, history);
    var i := 0;
    assert out[..] == history;
    while i < out.Length
      invariant 0 <= i <= out.Length
      invariant out[i..] == history[i..]
      invariant whole == out[..i] + Ordered(ranks, history[i..])
      decreases out.Length - i
    {
      ghost var was, known := out[..], ranks;
      assert was[i] == history[i] && was[i + 1..] == history[i + 1..] && was[..i + 1] == was[..i] + [was[i]] by {
        assert was[i..][0] == history[i..][0];
        assert was[i..][1..] == was[i + 1..] && history[i..][1..] == history[i + 1..];
      }
      ranks := RanksAfter(ranks, out[i]);
      if out[i].role != TOOL {
        assert was[..i] + Ordered(known, history[i..]) ==
               was[..i] + [history[i]] + Ordered(RanksAfter(known, history[i]), history[i + 1..]) by {
          OrderedSteps(known, history, i);
          Glued(was[..i], [history[i]], Ordered(RanksAfter(known, history[i]), history[i + 1..]));
        }
        i := i + 1;
      } else {
        var start := i;
        i := RunEnd(out, start);
        RunStep(known, history, start, i, was[..start]);
        SortRun(out, start, i, ranks);
        RunSorted(was, history, start, i, Sorted(ranks, was[start..i]), out[..]);
      }
    }
    r := out[..];
    NothingOrdered(ranks);
    assert history[i..] == [];
  }

  lemma RunSorted(was: seq<Message>, history: seq<Message>, start: nat, end: nat, sorted: seq<Message>,
          now: seq<Message>)
    requires start <= end <= |history| == |was| && was[start..] == history[start..] && |sorted| == end - start
    requires now == was[..start] + sorted + was[end..]
    ensures was[start..end] == history[start..end] && now[end..] == history[end..] &&
            now[..end] == was[..start] + sorted
  {
    assert was[start..][..end - start] == was[start..end] && history[start..][..end - start] == history[start..end];
    assert was[start..][end - start..] == was[end..] && history[start..][end - start..] == history[end..];
  }

  /** The end of the run of tool results at `start`. */
  method RunEnd(out: array<Message>, start: nat) returns (end: nat)
    requires start <= out.Length
    ensures end == start + RunLength(out[start..])
  {
    end := start;
    while end < out.Length && out[end].role == TOOL
      invariant start <= end <= start + RunLength(out[start..])
    {
      assert out[end] == out[start..][end - start];
      end := end + 1;
    }
    if end < out.Length {
      assert out[end] == out[start..][end - start];
    }
  }

  lemma RunStep(ranks: Ranks, history: seq<Message>, start: nat, end: nat, done: seq<Message>)
    requires start < |history| && history[start].role == TOOL && end == start + RunLength(history[start..])
    ensures start < end <= |history| && RanksAfter(ranks, history[start]) == ranks
    ensures done + Ordered(ranks, history[start..]) ==
            done + Sorted(ranks, history[start..end]) + Ordered(ranks, history[end..])
  {
    hide Ordered, Sorted;
    OrderedSteps(ranks, history, start);
    Glued(done, Sorted(ranks, history[start..end]), Ordered(ranks, history[end..]));
  }

  lemma Glued(a: seq<Message>, b: seq<Message>, c: seq<Message>)
    ensures a + (b + c) == a + b + c
  {}

  lemma NothingOrdered(ranks: Ranks)
    ensures Ordered(ranks, []) == []
  {}

  lemma OrderedSteps(ranks: Ranks, history: seq<Message>, i: nat)
    requires i < |history|
    ensures history[i].role != TOOL ==>
              Ordered(ranks, history[i..]) == [history[i]] + Ordered(RanksAfter(ranks, history[i]), history[i + 1..])
    ensures history[i].role == TOOL ==>
              var n := i + RunLength(history[i..]);
              RanksAfter(ranks, history[i]) == ranks && n > i &&
              Ordered(ranks, history[i..]) == Sorted(ranks, history[i..n]) + Ordered(ranks, history[n..])
  {
    hide Sorted;
    var h := history[i..];
    assert h[1..] == history[i + 1..];
    var n := RunLength(h);
    assert h[..n] == history[i..i + n] && h[n..] == history[i + n..];
  }

  // ----- what the order is -----

  predicate InOrder(ranks: Ranks, s: seq<Message>) {
    forall i, j :: 0 <= i < j < |s| ==> Rank(ranks, s[i]) <= Rank(ranks, s[j])
  }

  /** The messages of one rank, in order. */
  function OfRank(ranks: Ranks, s: seq<Message>, k: nat): seq<Message> {
    if s == [] then []
    else
      var n := |s| - 1;
      OfRank(ranks, s[..n], k) + if Rank(ranks, s[n]) == k then [s[n]] else []
  }

  lemma OneMoreOfRank(ranks: Ranks, s: seq<Message>, m: Message, k: nat)
    ensures OfRank(ranks, s + [m], k) == OfRank(ranks, s, k) + if Rank(ranks, m) == k then [m] else []
  {
    hide Rank;
    assert (s + [m])[..|s|] == s;
  }

  lemma {:induction false} InsertedKeeps(ranks: Ranks, s: seq<Message>, m: Message, k: nat)
    requires InOrder(ranks, s)
    ensures var r := Inserted(ranks, s, m);
            InOrder(ranks, r) && OfRank(ranks, r, k) == OfRank(ranks, s, k) + if Rank(ranks, m) == k then [m] else []
    ensures forall x :: x in Inserted(ranks, s, m) <==> x in s || x == m
    decreases |s|
  {
    hide Rank, OfRank, InOrder;
    if s == [] {
      Alone(ranks, m);
      OneMoreOfRank(ranks, [], m, k);
      assert [] + [m] == [m];
    } else {
      var n := |s| - 1;
      assert s == s[..n] + [s[n]];
      if Rank(ranks, s[n]) > Rank(ranks, m) {
        var r := Inserted(ranks, s[..n], m);
        LastIsHighest(ranks, s);
        InsertedKeeps(ranks, s[..n], m, k);
        OneMoreOfRank(ranks, r, s[n], k);
        OneMoreOfRank(ranks, s[..n], s[n], k);
        OneAfter(ranks, r, s[n]);
      } else {
        OneMoreOfRank(ranks, s, m, k);
        LastIsHighest(ranks, s);
        OneAfter(ranks, s, m);
      }
    }
  }

  lemma Alone(ranks: Ranks, m: Message)
    ensures InOrder(ranks, [m])
  {}

  lemma LastIsHighest(ranks: Ranks, s: seq<Message>)
    requires InOrder(ranks, s) && s != []
    ensures InOrder(ranks, s[..|s| - 1]) && forall x :: x in s ==> Rank(ranks, x) <= Rank(ranks, s[|s| - 1])
  {
    hide Rank;
  }

  lemma OneAfter(ranks: Ranks, s: seq<Message>, m: Message)
    requires InOrder(ranks, s) && forall x :: x in s ==> Rank(ranks, x) <= Rank(ranks, m)
    ensures InOrder(ranks, s + [m])
  {
    hide Rank;
  }

  /** A run comes out in order, and messages of one rank as they came: a stable sort. */
  lemma {:induction false} SortedIsStable(ranks: Ranks, run: seq<Message>, k: nat)
    ensures InOrder(ranks, Sorted(ranks, run)) && OfRank(ranks, Sorted(ranks, run), k) == OfRank(ranks, run, k)
    ensures forall x :: x in Sorted(ranks, run) <==> x in run
  {
    hide Rank, OfRank, Inserted;
    if run != [] {
      var n := |run| - 1;
      SortedIsStable(ranks, run[..n], k);
      InsertedKeeps(ranks, Sorted(ranks, run[..n]), run[n], k);
      OneMoreOfRank(ranks, run[..n], run[n], k);
      assert run == run[..n] + [run[n]];
    }
  }

  lemma {:induction false} OfRankHolds(ranks: Ranks, s: seq<Message>, k: nat)
    ensures forall x :: x in OfRank(ranks, s, k) <==> x in s && Rank(ranks, x) == k
  {
    hide Rank;
    if s != [] {
      var n := |s| - 1;
      OfRankHolds(ranks, s[..n], k);
      assert s == s[..n] + [s[n]];
    }
  }

  /** The last message of a sorted run has the highest rank, and is the last of its rank. */
  lemma LastOfAll(ranks: Ranks, s: seq<Message>, k: nat)
    requires InOrder(ranks, s) && s != []
    ensures var z := OfRank(ranks, s, Rank(ranks, s[|s| - 1])); z != [] && z[|z| - 1] == s[|s| - 1]
    ensures OfRank(ranks, s, k) != [] ==> k <= Rank(ranks, s[|s| - 1])
  {
    hide Rank, InOrder;
    LastIsHighest(ranks, s);
    OfRankHolds(ranks, s, k);
    if OfRank(ranks, s, k) != [] {
      assert OfRank(ranks, s, k)[0] in s;
    }
  }

  ghost predicate SameByRank(ranks: Ranks, a: seq<Message>, b: seq<Message>) {
    forall k: nat :: OfRank(ranks, a, k) == OfRank(ranks, b, k)
  }

  lemma NoneOfAnyRank(ranks: Ranks, s: seq<Message>)
    requires SameByRank(ranks, s, [])
    ensures s == []
  {
    assert s != [] ==> OfRank(ranks, s, Rank(ranks, s[|s| - 1])) != [] by {
      hide Rank;
    }
    hide Rank;
    var k := if s == [] then 0 else Rank(ranks, s[|s| - 1]);
    assert OfRank(ranks, s, k) == OfRank(ranks, [], k) == [];
  }

  lemma SameLast(ranks: Ranks, a: seq<Message>, b: seq<Message>)
    requires InOrder(ranks, a) && InOrder(ranks, b) && SameByRank(ranks, a, b) && a != [] && b != []
    ensures a[|a| - 1] == b[|b| - 1] && SameByRank(ranks, a[..|a| - 1], b[..|b| - 1])
  {
    hide Rank, InOrder, OfRank;
    var x, y := a[|a| - 1], b[|b| - 1];
    var i, j := Rank(ranks, x), Rank(ranks, y);
    assert OfRank(ranks, a, i) == OfRank(ranks, b, i) && OfRank(ranks, a, j) == OfRank(ranks, b, j);
    LastOfAll(ranks, a, j);
    LastOfAll(ranks, b, i);
    var u, v := a[..|a| - 1], b[..|b| - 1];
    assert a == u + [x] && b == v + [x];
    forall k: nat ensures OfRank(ranks, u, k) == OfRank(ranks, v, k) {
      OneMoreOfRank(ranks, u, x, k);
      OneMoreOfRank(ranks, v, x, k);
      assert OfRank(ranks, a, k) == OfRank(ranks, b, k);
      assert OfRank(ranks, u, k) == OfRank(ranks, v, k) by {
        assert OfRank(ranks, u, k) == (OfRank(ranks, u, k) + (if i == k then [x] else []))[..|OfRank(ranks, u, k)|] &&
               OfRank(ranks, v, k) == (OfRank(ranks, v, k) + (if i == k then [x] else []))[..|OfRank(ranks, v, k)|];
      }
    }
  }

  /** There is one stable sort: two sorted runs with the same messages of each rank, in the same order, are the same. */
  lemma {:induction false} StableSortIsUnique(ranks: Ranks, a: seq<Message>, b: seq<Message>)
    requires InOrder(ranks, a) && InOrder(ranks, b) && SameByRank(ranks, a, b)
    ensures a == b
    decreases |a|
  {
    hide Rank, OfRank;
    if a == [] {
      assert SameByRank(ranks, b, []);
      NoneOfAnyRank(ranks, b);
    } else if b == [] {
      NoneOfAnyRank(ranks, a);
    } else {
      SameLast(ranks, a, b);
      StableSortIsUnique(ranks, a[..|a| - 1], b[..|b| - 1]);
      assert a == a[..|a| - 1] + [a[|a| - 1]];
      assert b == b[..|b| - 1] + [b[|b| - 1]];
    }
  }

  lemma SortedIsSame(ranks: Ranks, run: seq<Message>)
    ensures InOrder(ranks, Sorted(ranks, run)) && SameByRank(ranks, Sorted(ranks, run), run)
  {
    hide Sorted, OfRank, InOrder, Rank;
    forall k: nat ensures OfRank(ranks, Sorted(ranks, run), k) == OfRank(ranks, run, k) {
      SortedIsStable(ranks, run, k);
    }
    SortedIsStable(ranks, run, 0);
  }

  /** Two runs come out the same exactly when the results of each rank came in the same order. */
  lemma ArrivalForgotten(ranks: Ranks, a: seq<Message>, b: seq<Message>)
    ensures Sorted(ranks, a) == Sorted(ranks, b) <==> SameByRank(ranks, a, b)
  {
    hide Sorted, OfRank, InOrder, Rank;
    SortedIsSame(ranks, a);
    SortedIsSame(ranks, b);
    if Sorted(ranks, a) == Sorted(ranks, b) {
      forall k: nat ensures OfRank(ranks, a, k) == OfRank(ranks, b, k) {
        assert OfRank(ranks, Sorted(ranks, a), k) == OfRank(ranks, a, k);
        assert OfRank(ranks, Sorted(ranks, b), k) == OfRank(ranks, b, k);
      }
    }
    if SameByRank(ranks, a, b) {
      forall k: nat ensures OfRank(ranks, Sorted(ranks, a), k) == OfRank(ranks, Sorted(ranks, b), k) {
        assert OfRank(ranks, Sorted(ranks, a), k) == OfRank(ranks, a, k) == OfRank(ranks, b, k);
      }
      StableSortIsUnique(ranks, Sorted(ranks, a), Sorted(ranks, b));
    }
  }

  /** Each result answers a call of its own. */
  predicate OneEach(ranks: Ranks, s: seq<Message>) {
    forall i, j :: 0 <= i < j < |s| ==> Rank(ranks, s[i]) != Rank(ranks, s[j])
  }

  lemma {:induction false} AtMostOne(ranks: Ranks, s: seq<Message>, k: nat)
    requires OneEach(ranks, s)
    ensures |OfRank(ranks, s, k)| <= 1
  {
    hide Rank;
    if s != [] {
      var n := |s| - 1;
      AtMostOne(ranks, s[..n], k);
      OfRankHolds(ranks, s[..n], k);
      if Rank(ranks, s[n]) == k {
        assert OfRank(ranks, s[..|s| - 1], k) == [] by {
          hide OfRank;
          NoneOfRank(ranks, s[..|s| - 1], k);
        }
      }
    }
  }

  lemma {:induction false} NoneOfRank(ranks: Ranks, s: seq<Message>, k: nat)
    requires forall i :: 0 <= i < |s| ==> Rank(ranks, s[i]) != k
    ensures OfRank(ranks, s, k) == []
  {
    hide Rank;
    if s != [] {
      NoneOfRank(ranks, s[..|s| - 1], k);
    }
  }

  /** Results of different calls come out in call order, however they arrived. */
  lemma ParallelResults(ranks: Ranks, a: seq<Message>, b: seq<Message>)
    requires OneEach(ranks, a) && OneEach(ranks, b) && forall x :: x in a <==> x in b
    ensures Sorted(ranks, a) == Sorted(ranks, b)
  {
    hide Sorted, OfRank, Rank;
    forall k: nat ensures OfRank(ranks, a, k) == OfRank(ranks, b, k) {
      AtMostOne(ranks, a, k);
      AtMostOne(ranks, b, k);
      OfRankHolds(ranks, a, k);
      OfRankHolds(ranks, b, k);
      assert OfRank(ranks, a, k) == OfRank(ranks, b, k) by {
        assert OfRank(ranks, a, k) == [] || OfRank(ranks, a, k)[0] in OfRank(ranks, b, k);
        assert OfRank(ranks, b, k) == [] || OfRank(ranks, b, k)[0] in OfRank(ranks, a, k);
      }
    }
    ArrivalForgotten(ranks, a, b);
  }

  // ----- the whole history -----

  lemma {:induction false} RunOf(a: seq<Message>, b: seq<Message>)
    requires (forall i :: 0 <= i < |a| ==> a[i].role == TOOL) && (b == [] || b[0].role != TOOL)
    ensures RunLength(a + b) == |a|
  {
    if a == [] {
      assert a + b == b;
    } else {
      assert (a + b)[1..] == a[1..] + b;
      RunOf(a[1..], b);
    }
  }

  /** Other messages stay where they were, and results within their runs. */
  lemma {:induction false} PlacesKept(ranks: Ranks, h: seq<Message>)
    ensures SamePlaces(Ordered(ranks, h), h)
    decreases |h|
  {
    hide Sorted, RanksAfter, RunLength;
    if h != [] {
      if h[0].role != TOOL {
        var rest := Ordered(RanksAfter(ranks, h[0]), h[1..]);
        PlacesKept(RanksAfter(ranks, h[0]), h[1..]);
        PlacesJoin([h[0]], h[..1], rest, h[1..]);
        assert h == h[..1] + h[1..];
      } else {
        var n := RunLength(h);
        RunGoesOn(h);
        PlacesKept(ranks, h[n..]);
        SortedAreResults(ranks, h[..n]);
        PlacesJoin(Sorted(ranks, h[..n]), h[..n], Ordered(ranks, h[n..]), h[n..]);
        assert h == h[..n] + h[n..];
      }
    }
  }

  predicate SamePlaces(r: seq<Message>, h: seq<Message>) {
    && |r| == |h|
    && forall i :: 0 <= i < |h| ==> (r[i].role == TOOL <==> h[i].role == TOOL) && (h[i].role != TOOL ==> r[i] == h[i])
  }

  lemma PlacesJoin(a: seq<Message>, b: seq<Message>, c: seq<Message>, d: seq<Message>)
    requires SamePlaces(a, b) && SamePlaces(c, d)
    ensures SamePlaces(a + c, b + d)
  {}

  lemma {:induction false} InsertedPermutes(ranks: Ranks, s: seq<Message>, m: Message)
    ensures multiset(Inserted(ranks, s, m)) == multiset(s) + multiset{m}
    decreases |s|
  {
    hide Rank;
    if s != [] {
      assert s == s[..|s| - 1] + [s[|s| - 1]];
      InsertedPermutes(ranks, s[..|s| - 1], m);
    }
  }

  lemma {:induction false} SortedPermutes(ranks: Ranks, run: seq<Message>)
    ensures multiset(Sorted(ranks, run)) == multiset(run)
  {
    hide Inserted;
    if run != [] {
      var n := |run| - 1;
      assert run == run[..n] + [run[n]];
      SortedPermutes(ranks, run[..n]);
      InsertedPermutes(ranks, Sorted(ranks, run[..n]), run[n]);
    }
  }

  /** No message is lost or repeated. */
  lemma {:induction false} OrderedPermutes(ranks: Ranks, h: seq<Message>)
    ensures multiset(Ordered(ranks, h)) == multiset(h)
    decreases |h|
  {
    hide Sorted, RanksAfter, RunLength;
    if h != [] {
      if h[0].role != TOOL {
        OrderedPermutes(RanksAfter(ranks, h[0]), h[1..]);
        assert h == [h[0]] + h[1..];
      } else {
        var n := RunLength(h);
        RunGoesOn(h);
        SortedPermutes(ranks, h[..n]);
        OrderedPermutes(ranks, h[n..]);
        assert h == h[..n] + h[n..];
      }
    }
  }

  lemma SortedAreResults(ranks: Ranks, run: seq<Message>)
    requires forall i :: 0 <= i < |run| ==> run[i].role == TOOL
    ensures forall i :: 0 <= i < |run| ==> Sorted(ranks, run)[i].role == TOOL
  {
    hide Sorted, InOrder, OfRank;
    SortedIsStable(ranks, run, 0);
    forall i | 0 <= i < |run| ensures Sorted(ranks, run)[i].role == TOOL {
      assert Sorted(ranks, run)[i] in run;
    }
  }

  /** Ordering what is ordered changes nothing. */
  lemma {:induction false} OrderedTwice(ranks: Ranks, h: seq<Message>)
    ensures Ordered(ranks, Ordered(ranks, h)) == Ordered(ranks, h)
    decreases |h|
  {
    hide Sorted, RanksAfter, RunLength;
    if h != [] {
      if h[0].role != TOOL {
        var rest := Ordered(RanksAfter(ranks, h[0]), h[1..]);
        OrderedTwice(RanksAfter(ranks, h[0]), h[1..]);
        assert ([h[0]] + rest)[1..] == rest;
      } else {
        var n := RunLength(h);
        RunGoesOn(h);
        var run, rest := Sorted(ranks, h[..n]), Ordered(ranks, h[n..]);
        OrderedTwice(ranks, h[n..]);
        PlacesKept(ranks, h[n..]);
        SortedAreResults(ranks, h[..n]);
        RunOf(run, rest);
        assert Sorted(ranks, Sorted(ranks, h[..n])) == Sorted(ranks, h[..n]) by {
          hide OfRank, InOrder, Rank;
          SortedIsSame(ranks, h[..n]);
          ArrivalForgotten(ranks, Sorted(ranks, h[..n]), h[..n]);
        }
        assert (run + rest)[..n] == run && (run + rest)[n..] == rest;
        assert (run + rest)[0] == run[0];
      }
    }
  }

  lemma RunGoesOn(h: seq<Message>)
    requires h != [] && h[0].role == TOOL
    ensures 0 < RunLength(h)
  {}

  // ----- the order of the calls -----

  predicate Known(ranks: Ranks, m: Message) {
    m.answers in ranks
  }

  /** The position a result is ranked by: the last call of its id, or 0 if no call has it. */
  predicate Place(calls: seq<string>, id: string, k: nat) {
    if id != "" && id in calls then k < |calls| && calls[k] == id && id !in calls[k + 1..] else k == 0
  }

  lemma OneMorePlace(init: seq<string>, c: string, id: string, k: nat)
    ensures Place(init + [c], id, k) <==> if id != "" && c == id then k == |init| else Place(init, id, k)
  {
    if k < |init| {
      assert (init + [c])[k + 1..] == init[k + 1..] + [c];
    } else if k == |init| {
      assert (init + [c])[k + 1..] == [];
    }
  }

  /** The ranks are those places, and only the calls that have an id are known. */
  lemma {:induction false} RanksArePlaces(calls: seq<string>, m: Message, k: nat)
    ensures Rank(RanksOf(calls), m) == k <==> Place(calls, m.answers, k)
    ensures Known(RanksOf(calls), m) <==> m.answers != "" && m.answers in calls
  {
    if calls != [] {
      hide Place;
      var n := |calls| - 1;
      RanksArePlaces(calls[..n], m, k);
      assert calls == calls[..n] + [calls[n]];
      OneMorePlace(calls[..n], calls[n], m.answers, k);
    }
  }

  /** The calls of the last assistant turn before `i` that has any. */
  function CallsBefore(h: seq<Message>, i: nat): seq<string>
    requires i <= |h|
  {
    if i == 0 then []
    else if h[i - 1].role == ASSISTANT && h[i - 1].calls != [] then h[i - 1].calls
    else CallsBefore(h, i - 1)
  }

  function RanksAt(ranks: Ranks, h: seq<Message>, i: nat): Ranks
    requires i <= |h|
  {
    if CallsBefore(h, i) == [] then ranks else RanksOf(CallsBefore(h, i))
  }

  lemma {:induction false} CallsFrom(h: seq<Message>, n: nat, i: nat)
    requires n <= i <= |h|
    ensures CallsBefore(h, i) == if CallsBefore(h[n..], i - n) == [] then CallsBefore(h, n)
                                 else CallsBefore(h[n..], i - n)
  {
    if i > n {
      CallsFrom(h, n, i - 1);
      assert h[n..][i - n - 1] == h[i - 1];
    }
  }

  lemma {:induction false} NoCallsInRun(h: seq<Message>, n: nat)
    requires n <= |h| && forall i :: 0 <= i < n ==> h[i].role == TOOL
    ensures CallsBefore(h, n) == []
  {
    if n > 0 {
      NoCallsInRun(h, n - 1);
    }
  }

  /** All the results between two other messages, or an end. */
  predicate IsRun(h: seq<Message>, start: nat, end: nat) {
    && start < end <= |h|
    && (forall i :: start <= i < end ==> h[i].role == TOOL)
    && (start > 0 ==> h[start - 1].role != TOOL)
    && (end < |h| ==> h[end].role != TOOL)
  }

  lemma {:induction false} RunStartsAt(h: seq<Message>, end: nat)
    requires IsRun(h, 0, end)
    ensures RunLength(h) == end
    decreases end
  {
    if end == 1 {
      assert h[1..] == [] || h[1..][0].role != TOOL;
    } else {
      RunStartsAt(h[1..], end - 1);
    }
  }

  lemma RunFrom(h: seq<Message>, n: nat, start: nat, end: nat)
    requires IsRun(h, start, end) && n <= start
    ensures IsRun(h[n..], start - n, end - n) && h[n..][start - n..end - n] == h[start..end]
  {}

  lemma Behind(a: seq<Message>, b: seq<Message>, start: nat, end: nat)
    requires |a| <= start <= end <= |a| + |b|
    ensures (a + b)[start..end] == b[start - |a|..end - |a|]
  {}

  lemma RanksBehindOne(ranks: Ranks, h: seq<Message>, i: nat)
    requires 0 < i <= |h|
    ensures RanksAt(RanksAfter(ranks, h[0]), h[1..], i - 1) == RanksAt(ranks, h, i)
  {
    hide RanksOf;
    CallsFrom(h, 1, i);
    assert CallsBefore(h, 0) == [];
  }

  lemma RanksBehindRun(ranks: Ranks, h: seq<Message>, n: nat, i: nat)
    requires n <= i <= |h| && forall k :: 0 <= k < n ==> h[k].role == TOOL
    ensures RanksAt(ranks, h[n..], i - n) == RanksAt(ranks, h, i)
  {
    hide RanksOf, CallsBefore;
    NoCallsInRun(h, n);
    CallsFrom(h, n, i);
  }

  /** The first run is the one at the start, or ends before it. */
  lemma OpensRun(h: seq<Message>, start: nat, end: nat)
    requires IsRun(h, start, end)
    ensures h != [] && (start == 0 ==> h[0].role == TOOL)
    ensures h[0].role == TOOL && start > 0 ==> 0 < RunLength(h) < start
  {
    hide Ordered;
    if h[0].role == TOOL {
      RunGoesOn(h);
    }
  }

  lemma FirstRun(ranks: Ranks, h: seq<Message>, end: nat)
    requires IsRun(h, 0, end)
    ensures Ordered(ranks, h)[0..end] == Sorted(RanksAt(ranks, h, 0), h[0..end])
  {
    hide Sorted, RanksOf, IsRun;
    OpensRun(h, 0, end);
    RunStartsAt(h, end);
    assert h[0..end] == h[..end];
    assert (Sorted(ranks, h[..end]) + Ordered(ranks, h[end..]))[0..end] == Sorted(ranks, h[..end]);
  }

  /** Every run is sorted by the calls of the last assistant turn before it that has any. */
  lemma {:induction false} RunByItsCalls(ranks: Ranks, h: seq<Message>, start: nat, end: nat)
    requires IsRun(h, start, end)
    ensures Ordered(ranks, h)[start..end] == Sorted(RanksAt(ranks, h, start), h[start..end])
    decreases |h|
  {
    hide Sorted, RanksOf, IsRun, Ordered, RanksAt, RanksAfter, RunLength;
    OpensRun(h, start, end);
    assert h[0..] == h;
    OrderedSteps(ranks, h, 0);
    if start == 0 {
      FirstRun(ranks, h, end);
    } else if h[0].role != TOOL {
      var inner := RanksAfter(ranks, h[0]);
      RunFrom(h, 1, start, end);
      RunByItsCalls(inner, h[1..], start - 1, end - 1);
      RanksBehindOne(ranks, h, start);
      Behind([h[0]], Ordered(inner, h[1..]), start, end);
    } else {
      var n := RunLength(h);
      RunFrom(h, n, start, end);
      RunByItsCalls(ranks, h[n..], start - n, end - n);
      RanksBehindRun(ranks, h, n, start);
      Behind(Sorted(ranks, h[..n]), Ordered(ranks, h[n..]), start, end);
    }
  }

  /** In the order's terms: of two results in one run of the answer, the first answers a call that is not behind the
      other's in the last assistant turn that has calls; and the results of one call are those that arrived, in their
      order. */
  lemma ResultsFollowCalls(h: seq<Message>, start: nat, end: nat)
    requires IsRun(h, start, end)
    ensures var r, calls := Ordered(map[], h), CallsBefore(h, start);
            && (forall i, j, p: nat, q: nat ::
                start <= i < j < end && Place(calls, r[i].answers, p) && Place(calls, r[j].answers, q) ==> p <= q)
            && forall k: nat :: OfRank(RanksOf(calls), r[start..end], k) == OfRank(RanksOf(calls), h[start..end], k)
  {
    hide Sorted, RanksOf, OfRank, Rank, Ordered, CallsBefore, Place;
    var r, calls := Ordered(map[], h), CallsBefore(h, start);
    var ranks := RanksOf(calls);
    RunByItsCalls(map[], h, start, end);
    NoRanks();
    SortedIsSame(ranks, h[start..end]);
    forall i, j, p: nat, q: nat |
      start <= i < j < end && Place(calls, r[i].answers, p) && Place(calls, r[j].answers, q)
      ensures p <= q
    {
      RanksArePlaces(calls, r[i], p);
      RanksArePlaces(calls, r[j], q);
      assert r[start..end][i - start] == r[i] && r[start..end][j - start] == r[j];
    }
  }

  lemma NoRanks()
    ensures RanksOf([]) == map[]
  {}

  // ----- results of unknown calls -----

  /** A result of the first call stands somewhere in front of one of an unknown call. */
  predicate FirstAhead(ranks: Ranks, s: seq<Message>) {
    exists i, j :: 0 <= i < j < |s| && Known(ranks, s[i]) && Rank(ranks, s[i]) == 0 && !Known(ranks, s[j])
  }

  predicate UnknownFirst(ranks: Ranks, s: seq<Message>) {
    forall i, j :: 0 <= i < j < |s| && Known(ranks, s[i]) ==> Known(ranks, s[j])
  }

  /** An unknown call ranks with the first, so its results come first exactly when no result of the first call arrived
      before one of them. */
  lemma UnknownsFirst(ranks: Ranks, run: seq<Message>)
    ensures UnknownFirst(ranks, Sorted(ranks, run)) <==> !FirstAhead(ranks, run)
  {
    hide Sorted, OfRank, FirstAhead;
    SortedIsStable(ranks, run, 0);
    AheadByRank(ranks, run);
    AheadByRank(ranks, Sorted(ranks, run));
    InOrderAhead(ranks, Sorted(ranks, run));
  }

  /** In a sorted run only a result of the first call can stand in front of an unknown one. */
  lemma InOrderAhead(ranks: Ranks, s: seq<Message>)
    requires InOrder(ranks, s)
    ensures UnknownFirst(ranks, s) <==> !FirstAhead(ranks, s)
  {
    if !UnknownFirst(ranks, s) {
      var i, j :| 0 <= i < j < |s| && Known(ranks, s[i]) && !Known(ranks, s[j]);
      assert Rank(ranks, s[i]) <= Rank(ranks, s[j]) == 0;
    }
  }

  /** Which only the messages of the lowest rank decide. */
  lemma {:induction false} AheadByRank(ranks: Ranks, s: seq<Message>)
    ensures FirstAhead(ranks, s) <==> FirstAhead(ranks, OfRank(ranks, s, 0))
  {
    hide FirstAhead, Rank;
    if s == [] {
    } else {
      var n := |s| - 1;
      var init, m := s[..n], s[n];
      AheadByRank(ranks, init);
      OneMoreAhead(ranks, init, m);
      OneMoreAhead(ranks, OfRank(ranks, init, 0), m);
      OfRankHolds(ranks, init, 0);
      assert s == init + [m];
      UnknownRank(ranks, m);
      SomeFirst(ranks, init);
      assert OfRank(ranks, init, 0) + [] == OfRank(ranks, init, 0);
    }
  }

  lemma UnknownRank(ranks: Ranks, m: Message)
    ensures !Known(ranks, m) ==> Rank(ranks, m) == 0
  {}

  predicate HasFirst(ranks: Ranks, s: seq<Message>) {
    exists i :: 0 <= i < |s| && Known(ranks, s[i]) && Rank(ranks, s[i]) == 0
  }

  lemma SomeFirst(ranks: Ranks, s: seq<Message>)
    ensures HasFirst(ranks, s) <==> HasFirst(ranks, OfRank(ranks, s, 0))
  {
    hide Rank, OfRank;
    var z := OfRank(ranks, s, 0);
    OfRankHolds(ranks, s, 0);
    if HasFirst(ranks, s) {
      var i :| 0 <= i < |s| && Known(ranks, s[i]) && Rank(ranks, s[i]) == 0;
      assert s[i] in z;
    }
    if HasFirst(ranks, z) {
      var i :| 0 <= i < |z| && Known(ranks, z[i]) && Rank(ranks, z[i]) == 0;
      assert z[i] in s;
    }
  }

  lemma OneMoreAhead(ranks: Ranks, s: seq<Message>, m: Message)
    ensures FirstAhead(ranks, s + [m]) <==> FirstAhead(ranks, s) || (!Known(ranks, m) && HasFirst(ranks, s))
  {
    hide Rank;
    var t := s + [m];
    if FirstAhead(ranks, s) {
      var i, j :| 0 <= i < j < |s| && Known(ranks, s[i]) && Rank(ranks, s[i]) == 0 && !Known(ranks, s[j]);
      assert t[i] == s[i] && t[j] == s[j];
    }
    if !Known(ranks, m) && HasFirst(ranks, s) {
      var i :| 0 <= i < |s| && Known(ranks, s[i]) && Rank(ranks, s[i]) == 0;
      assert t[i] == s[i] && t[|s|] == m;
    }
    if FirstAhead(ranks, t) {
      var i, j :| 0 <= i < j < |t| && Known(ranks, t[i]) && Rank(ranks, t[i]) == 0 && !Known(ranks, t[j]);
      assert t[i] == s[i];
      if j < |s| {
        assert t[j] == s[j];
      }
    }
  }

  /** The result of the first call and then one of an unknown call: they stay so. */
  lemma UnknownNotFirst(id: string, other: string)
    requires id != "" && other != id
    ensures var ranks := RanksOf([id]);
            var known, unknown := Message(TOOL, [], id, ""), Message(TOOL, [], other, "");
            !Known(ranks, unknown) && Sorted(ranks, [known, unknown]) == [known, unknown]
  {
    hide Rank;
    var ranks := RanksOf([id]);
    assert [id][..0] == [] && RanksOf([]) == map[];
    var known, unknown := Message(TOOL, [], id, ""), Message(TOOL, [], other, "");
    assert ranks == map[id := 0];
    var run := [known, unknown];
    assert run[..1] == [known] && [known][..0] == [];
    assert Sorted(ranks, []) == [] && Sorted(ranks, [known]) == Inserted(ranks, [], known) == [known];
    EqualRanks(ranks, known, unknown, id);
    assert Inserted(ranks, [known], unknown) == [known] + [unknown];
  }

  lemma EqualRanks(ranks: Ranks, known: Message, unknown: Message, id: string)
    requires ranks == map[id := 0] && known.answers == id && unknown.answers != id
    ensures Rank(ranks, known) == 0 == Rank(ranks, unknown)
  {}
}
