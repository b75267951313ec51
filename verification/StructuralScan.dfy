/** The scan for the last structural `</think>` (dsml/tooltext.go:101-130): what it passes over, and the exact
    text behind which it finds the closer that was written. */
module StructuralScan {
  import opened Text
  import opened Markup
  import opened Grammar
  import opened Phases
  import opened Transitions
  import opened Decode
  import opened Completion

  function Shift(n: nat, r: int): int {
    if r < 0 then -1 else n + r
  }

  // ----- tags and plain text -----

  /** The wrapper pairs of a reader, whose openers begin with `<`. */
  predicate Openers(ws: seq<(string, string)>) {
    forall i :: 0 <= i < |ws| ==> ws[i].0 != "" && ws[i].0[0] == '<'
  }

  /** A tag that is no wrapper and no `</think>`, with one `<`, in front. */
  predicate Inert(ws: seq<(string, string)>, tag: string) {
    && tag != "" && (forall i :: 0 < i < |tag| ==> tag[i] != '<')
    && (tag[0] == '<' ==> Apart(tag, THINK_END) && forall i :: 0 <= i < |ws| ==> Apart(tag, ws[i].0))
  }

  lemma PlainIsInert(ws: seq<(string, string)>, w: string)
    requires w != "" && forall i :: 0 <= i < |w| ==> w[i] != '<'
    ensures Inert(ws, w)
  {}

  lemma {:induction false} NoWrapper(ws: seq<(string, string)>, s: string)
    requires forall i :: 0 <= i < |ws| ==> !(ws[i].0 <= s)
    ensures WrapperAt(ws, s).None?
  {
    if ws != [] {
      NoWrapper(ws[1..], s);
    }
  }

  lemma InertAt(tag: string, u: string, r: string, j: nat)
    requires j < |tag| && u != "" && u[0] == '<' && (tag[0] == '<' ==> Apart(tag, u)) && forall i ::
             0 < i < |tag| ==> tag[i] != '<'
    ensures !(u <= (tag + r)[j..])
  {
    assert (tag + r)[j..][0] == tag[j];
    if j == 0 && tag[0] == '<' {
      ApartIsFinal(tag, tag, u, r);
      assert (tag + r)[0..] == tag + r;
    }
  }

  lemma InertSkips(ws: seq<(string, string)>, tag: string, r: string)
    requires Openers(ws) && Inert(ws, tag)
    ensures LastStructural(ws, tag + r, THINK_END) == Shift(|tag|, LastStructural(ws, r, THINK_END))
  {
    hide WrapperAt, LastStructural;
    var s := tag + r;
    forall j | 0 <= j < |tag| ensures WrapperAt(ws, s[j..]).None? && !(THINK_END <= s[j..]) {
      forall i | 0 <= i < |ws| ensures !(ws[i].0 <= s[j..]) {
        InertAt(tag, ws[i].0, r, j);
      }
      InertAt(tag, THINK_END, r, j);
      NoWrapper(ws, s[j..]);
    }
    CalmSkips(ws, tag, r);
  }

  /** Text in which neither a wrapper nor `</think>` begins is passed over. */
  lemma {:induction false} CalmSkips(ws: seq<(string, string)>, a: string, r: string)
    requires forall j :: 0 <= j < |a| ==> WrapperAt(ws, (a + r)[j..]).None? && !(THINK_END <= (a + r)[j..])
    ensures LastStructural(ws, a + r, THINK_END) == Shift(|a|, LastStructural(ws, r, THINK_END))
  {
    hide WrapperAt;
    var s := a + r;
    if a == "" {
      assert s == r;
    } else {
      assert s[0..] == s;
      assert s[1..] == a[1..] + r;
      forall j | 0 <= j < |a| - 1 ensures (a[1..] + r)[j..] == s[j + 1..] {}
      CalmSkips(ws, a[1..], r);
      assert Stride(ws, s) == Some(1);
    }
  }

  lemma {:induction false} WrapperIs(ws: seq<(string, string)>, w: (string, string), s: string)
    requires w in ws && w.0 <= s && forall i :: 0 <= i < |ws| ==> ws[i] == w || Apart(w.0, ws[i].0)
    ensures WrapperAt(ws, s) == Some(w)
  {
    if ws[0] != w {
      ApartIsFinal(w.0, w.0, ws[0].0, s[|w.0|..]);
      assert s == w.0 + s[|w.0|..];
      WrapperIs(ws[1..], w, s);
    }
  }

  /** Openers with one `<` and no line break. */
  predicate PlainOpeners(ws: seq<(string, string)>) {
    forall i :: 0 <= i < |ws| ==> IsOpener(ws[i].0)
  }

  /** Tags every reader passes: the two around the reasoning and the end of the sentence. */
  predicate Structural(ws: seq<(string, string)>) {
    && PlainOpeners(ws) && Openers(ws) && Inert(ws, EOS)
    && (forall i :: 0 <= i < |ws| ==> Apart(THINK_START, ws[i].0) && Apart(THINK_END, ws[i].0))
  }

  lemma ThinkTags()
    ensures IsOpener(THINK_END) && IsOpener(THINK_START) && Apart(THINK_START, THINK_END)
  {
    ApartAt(THINK_START, THINK_END, 1);
  }

  // ----- text in which every argument body closes -----

  /** Every argument body that opens where the scan looks closes in the text too. */
  predicate BodiesClose(ws: seq<(string, string)>, a: string)
    decreases |a|
  {
    a == "" || (Stride(ws, a).Some? && BodiesClose(ws, a[Stride(ws, a).value..]))
  }

  predicate NoCloser(ws: seq<(string, string)>, s: string) {
    LastStructural(ws, s, THINK_END) < 0
  }

  predicate TagFollows(r: string) {
    r != "" && (r[0] == '<' || r[0] == '\n')
  }

  /** No opener straddles the end of a text that a `<` or a line break follows. */
  lemma NoStraddle(u: string, s: string, r: string)
    requires IsOpener(u) && s != "" && TagFollows(r)
    ensures u <= s + r <==> u <= s
  {
    PrefixExtends(s, r, u);
    if |u| > |s| {
      assert (s + r)[|s|] == r[0];
      assert u[|s|] == u[1..][|s| - 1];
    }
  }

  lemma {:induction false} SameWrapper(ws: seq<(string, string)>, a: string, r: string)
    requires PlainOpeners(ws) && a != "" && TagFollows(r)
    ensures WrapperAt(ws, a + r) == WrapperAt(ws, a)
  {
    if ws != [] {
      NoStraddle(ws[0].0, a, r);
      SameWrapper(ws[1..], a, r);
    }
  }

  /** A match that lies in the front of a text is one of the front. */
  lemma {:induction false} IndexInFront(a: string, r: string, p: string)
    requires 0 <= Index(a + r, p) <= |a| - |p|
    ensures Index(a, p) == Index(a + r, p)
  {
    PrefixExtends(a, r, p);
    if !(p <= a + r) {
      DropAppend(a, r, 1);
      IndexInFront(a[1..], r, p);
    }
  }

  /** The scan moves alike at the front of a text and at the front of that text with a tag behind it, as long as it
      stays in the text. */
  lemma SameStride(ws: seq<(string, string)>, a: string, r: string)
    requires PlainOpeners(ws) && a != "" && TagFollows(r)
    ensures Stride(ws, a).Some? ==> Stride(ws, a + r) == Stride(ws, a)
    ensures Stride(ws, a + r).Some? && Stride(ws, a + r).value <= |a| ==> Stride(ws, a) == Stride(ws, a + r)
  {
    hide WrapperAt, Index;
    SameWrapper(ws, a, r);
    match WrapperAt(ws, a)
    case None =>
    case Some(w) =>
      if Index(a, ">") >= 0 {
        IndexExtends(a, r, ">");
      } else if 0 <= Index(a + r, ">") < |a| {
        IndexInFront(a, r, ">");
      }
      var gt := Index(a, ">");
      if gt >= 0 {
        DropAppend(a, r, gt + 1);
        if Index(a[gt + 1..], w.1) >= 0 {
          IndexExtends(a[gt + 1..], r, w.1);
        } else if 0 <= Index(a[gt + 1..] + r, w.1) <= |a[gt + 1..]| - |w.1| {
          IndexInFront(a[gt + 1..], r, w.1);
        }
      }
  }

  /** The scan comes to the end of a text whose bodies close. */
  lemma {:induction false} BodiesSkip(ws: seq<(string, string)>, a: string, r: string)
    requires PlainOpeners(ws) && BodiesClose(ws, a) && TagFollows(r)
    ensures LastStructural(ws, a + r, THINK_END) ==
            var q := LastStructural(ws, r, THINK_END); if q >= 0 then |a| + q else LastStructural(ws, a, THINK_END)
    decreases |a|
  {
    hide Stride;
    if a == "" {
      assert a + r == r;
    } else {
      var n := Stride(ws, a).value;
      ThinkTags();
      NoStraddle(THINK_END, a, r);
      SameStride(ws, a, r);
      DropAppend(a, r, n);
      BodiesSkip(ws, a[n..], r);
    }
  }

  /** The last structural `</think>` is the one written behind a text exactly when the bodies of that text close and
      none follows. */
  lemma {:induction false} ScanSplits(ws: seq<(string, string)>, a: string, r: string)
    requires PlainOpeners(ws) && TagFollows(r)
    ensures LastStructural(ws, a + r, THINK_END) == |a| <==> BodiesClose(ws, a) && LastStructural(ws, r, THINK_END) == 0
    decreases |a|
  {
    hide Stride;
    if a == "" {
      assert a + r == r;
    } else {
      SameStride(ws, a, r);
      match Stride(ws, a + r)
      case None =>
      case Some(n) =>
        if n <= |a| {
          DropAppend(a, r, n);
          ScanSplits(ws, a[n..], r);
        }
    }
  }

  /** What is behind a text whose bodies close decides with it whether a closer is left. */
  lemma CloserInFront(ws: seq<(string, string)>, a: string, r: string)
    requires Structural(ws) && BodiesClose(ws, a) && TagFollows(r) && NoCloser(ws, r)
    ensures NoCloser(ws, a + r) <==> NoCloser(ws, a)
  {
    hide LastStructural, BodiesClose, Inert;
    BodiesSkip(ws, a, r);
  }

  // ----- reasoning as a turn replays it -----

  lemma {:induction false} InertCloses(ws: seq<(string, string)>, tag: string, a: string)
    requires forall j :: 0 <= j < |tag| ==> WrapperAt(ws, (tag + a)[j..]).None?
    ensures BodiesClose(ws, tag + a) <==> BodiesClose(ws, a)
  {
    hide WrapperAt;
    var s := tag + a;
    if tag == "" {
      assert s == a;
    } else {
      assert s[0..] == s;
      assert s[1..] == tag[1..] + a;
      forall j | 0 <= j < |tag| - 1 ensures (tag[1..] + a)[j..] == s[j + 1..] {}
      InertCloses(ws, tag[1..], a);
      assert Stride(ws, s) == Some(1);
    }
  }

  /** A closing `</think>` is the last structural one exactly when none follows. */
  lemma CloserIsLast(ws: seq<(string, string)>, x: string)
    requires Structural(ws)
    ensures LastStructural(ws, THINK_END + x, THINK_END) == 0 <==> NoCloser(ws, x)
  {
    hide WrapperAt, LastStructural, Inert;
    var s := THINK_END + x;
    assert s[1..] == "/think>" + x && THINK_END <= s by {
      assert THINK_END == "<" + "/think>";
    }
    forall i | 0 <= i < |ws| ensures !(ws[i].0 <= s) {
      ApartIsFinal(THINK_END, THINK_END, ws[i].0, x);
    }
    NoWrapper(ws, s);
    PlainIsInert(ws, "/think>");
    InertSkips(ws, "/think>", x);
    CloserCounts(ws, s);
  }

  lemma CloserCounts(ws: seq<(string, string)>, s: string)
    requires THINK_END <= s && WrapperAt(ws, s).None?
    ensures LastStructural(ws, s, THINK_END) == 0 <==> LastStructural(ws, s[1..], THINK_END) < 0
  {
    hide WrapperAt;
    assert Stride(ws, s) == Some(1);
  }

  /** The scan splits a replayed turn at the closer that was written, whatever the reasoning and the reply hold,
      exactly when the bodies of the reasoning close and the reply has no structural closer. */
  lemma TurnSplits(ws: seq<(string, string)>, reasoning: string, x: string)
    requires Structural(ws)
    ensures LastStructural(ws, THINK_START + reasoning + THINK_END + x, THINK_END) == |THINK_START + reasoning|
       <==> BodiesClose(ws, reasoning) && NoCloser(ws, x)
  {
    assert Inert(ws, THINK_START) by {
      hide Openers, PlainOpeners;
      ThinkTags();
      assert THINK_START == "<" + "think>";
    }
    hide WrapperAt, LastStructural, BodiesClose, NoCloser, Inert;
    var a := THINK_START + reasoning;
    assert THINK_START + reasoning + THINK_END + x == a + (THINK_END + x);
    ScanSplits(ws, a, THINK_END + x);
    CloserIsLast(ws, x);
    assert forall j :: 0 <= j < |THINK_START| ==> WrapperAt(ws, (THINK_START + reasoning)[j..]).None? by {
      forall j | 0 <= j < |THINK_START| ensures WrapperAt(ws, (THINK_START + reasoning)[j..]).None? {
        forall i | 0 <= i < |ws| ensures !(ws[i].0 <= (THINK_START + reasoning)[j..]) {
          InertAt(THINK_START, ws[i].0, reasoning, j);
        }
        NoWrapper(ws, (THINK_START + reasoning)[j..]);
      }
    }
    InertCloses(ws, THINK_START, reasoning);
  }

  lemma NothingLeft(ws: seq<(string, string)>)
    ensures NoCloser(ws, "")
  {}

  // ----- the reasoning that comes back -----

  /** Trimming takes no `<`: a text that goes on with one trims to more than the text in front of it. */
  lemma LongerTrims(s: string, e: nat)
    requires e < |s| && s[e] == '<'
    ensures |TrimSpace(s[..e])| < |TrimSpace(s)|
  {
    hide SpaceAt, SpaceEnding;
    TrimFront(s, e);
    TrimBack(TrimLeft(s), |TrimLeft(s[..e])|);
  }

  lemma {:induction false} TrimFront(s: string, e: nat)
    requires e < |s| && s[e] == '<'
    ensures TrimLeft(s) == TrimLeft(s[..e]) + s[e..]
  {
    var k := SpaceAt(s);
    assert s == s[..e] + s[e..];
    if k > 0 {
      assert k <= e && SpaceAt(s[..e]) == k;
      assert s[..e][k..] == s[k..][..e - k] && s[k..][e - k..] == s[e..];
      TrimFront(s[k..], e - k);
    } else {
      assert SpaceAt(s[..e]) == 0;
    }
  }

  lemma {:induction false} TrimBack(s: string, e: nat)
    requires e < |s| && s[e] == '<'
    ensures |TrimRight(s)| > e
  {
    var k := SpaceEnding(s);
    if k > 0 {
      assert e < |s| - k;
      TrimBack(s[..|s| - k], e);
    }
  }

  /** Cut anywhere else in front of a `<`, or not at all, the text trims to other reasoning. */
  lemma OtherReasoning(reasoning: string, tail: string, m: nat)
    requires tail != "" && tail[0] == '<' && m <= |reasoning + tail| && m != |reasoning|
    requires m < |reasoning + tail| ==> (reasoning + tail)[m] == '<'
    ensures TrimSpace((reasoning + tail)[..m]) != TrimSpace(reasoning)
  {
    hide TrimSpace;
    var s := reasoning + tail;
    if m < |reasoning| {
      assert s[..m] == reasoning[..m];
      LongerTrims(reasoning, m);
    } else {
      assert s[..m][..|reasoning|] == reasoning && s[..m][|reasoning|] == '<';
      LongerTrims(s[..m], |reasoning|);
    }
  }

  lemma CloserNotInStart(t: string, end: int)
    requires THINK_START <= t && 0 <= end <= |t| && THINK_END <= t[end..]
    ensures |THINK_START| <= end < |t| && t[end] == '<' && THINK_START <= t[..end]
  {
    assert t[end..][0] == '<' && t[end..][1] == '/';
    assert forall k :: 0 <= k < |THINK_START| ==> t[k] == THINK_START[k];
  }

  /** The reasoning read back is the one written exactly when the turn is split at the closer written behind it; then
      the reply is read by itself. */
  lemma ThinkingReads(d: Reader, reasoning: string, x: string)
    requires Structural(Wrappers(d))
    ensures var t := THINK_START + reasoning + THINK_END + x;
            var m := ParseCompletion(d, t, true);
            && (m.reasoning == TrimSpace(reasoning) <==>
               BodiesClose(Wrappers(d), reasoning) && NoCloser(Wrappers(d), x))
            && (m.reasoning == TrimSpace(reasoning) ==> m == ParseContent(d, x).(reasoning := TrimSpace(reasoning)))
            && (m.reasoning == TrimSpace(reasoning) ==>
               LastStructural(Wrappers(d), t, THINK_END) == |THINK_START + reasoning|)
  {
    hide LastStructural, WrapperAt, Inert, ParseContent, Wrappers, BodiesClose, NoCloser, TrimSpace, Structural;
    var t, body := THINK_START + reasoning + THINK_END + x, reasoning + (THINK_END + x);
    var n, end := |THINK_START|, LastStructural(Wrappers(d), t, THINK_END);
    TurnSplits(Wrappers(d), reasoning, x);
    assert t == THINK_START + body && t[n..] == body;
    if end == n + |reasoning| {
      assert t[end + |THINK_END|..] == x && t[..end] == THINK_START + reasoning;
      assert (THINK_START + reasoning)[n..] == reasoning;
    } else {
      if end >= 0 {
        CloserNotInStart(t, end);
        assert t[..end][n..] == body[..end - n];
      }
      var m := if end < 0 then |body| else end - n;
      assert body[..|body|] == body;
      OtherReasoning(reasoning, THINK_END + x, m);
    }
  }
}
