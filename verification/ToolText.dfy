/** The escape scheme of tool bodies (dsml/tooltext.go). A body is not HTML: only its own
    closing delimiter and the spellings that would collide with that escape are rewritten. */
module ToolText {
  import opened Text

  /** A closing delimiter: `<` followed by text free of `<` and `&`. */
  predicate IsCloseTag(end: string) {
    end != [] && end[0] == '<' && Plain(end[1..])
  }

  predicate Plain(w: string) {
    forall i :: 0 <= i < |w| ==> w[i] != '<' && w[i] != '&'
  }

  /** How many times `amp;` repeats at the front of `s`. */
  function AmpCount(s: string): nat {
    if "amp;" <= s then 1 + AmpCount(s[4..]) else 0
  }

  /** What the scan past those repeats leaves. */
  function AfterAmps(s: string): string {
    if "amp;" <= s then AfterAmps(s[4..]) else s
  }

  function Amps(k: nat): (w: string)
    ensures Plain(w)
  {
    if k == 0 then "" else "amp;" + Amps(k - 1)
  }

  /** `toolTextEscapedClose`: `&`, any number of `amp;`, then `lt;` and the delimiter's tail. */
  predicate EscapedClose(s: string, end: string)
    requires end != []
  {
    "&" <= s && var t := AfterAmps(s[1..]); "lt;" <= t && end[1..] <= t[3..]
  }

  /** `toolTextNeedsEscape`. */
  predicate NeedsEscape(s: string, end: string)
    requires end != []
  {
    end <= s || EscapedClose(s, end)
  }

  /** What the byte at the front of `s` is written as. */
  function EscapedByte(s: string, end: string): string
    requires end != [] && s != []
  {
    if NeedsEscape(s, end) then (if s[0] == '<' then "&lt;" else "&amp;") else [s[0]]
  }

  function Escape(s: string, end: string): string
    requires end != []
  {
    if s == [] then "" else EscapedByte(s, end) + Escape(s[1..], end)
  }

  /** What reading at the front of `s` yields, and how many bytes it consumes. */
  function UnescapedByte(s: string, end: string): (r: (char, nat))
    requires end != [] && s != []
    ensures 0 < r.1 <= |s|
  {
    if EscapedClose(s, end) then
      AfterAmpsLength(s[1..]);
      if "&amp;" <= s then ('&', 5) else ('<', 4)
    else (s[0], 1)
  }

  function Unescape(s: string, end: string): string
    requires end != []
  {
    if s == [] then "" else var r := UnescapedByte(s, end); [r.0] + Unescape(s[r.1..], end)
  }

  lemma AfterAmpsLength(s: string)
    ensures |AfterAmps(s)| <= |s|
    ensures !("amp;" <= s) ==> AfterAmps(s) == s
  {}

  // ----- the loops -----

  /** `escapeToolText`, early exit included. */
  method EscapeToolText(s: string, end: string) returns (b: string)
    requires IsCloseTag(end)
    ensures b == Escape(s, end)
  {
    if !Contains(s, end[1..]) {
      IndexIsFirst(s, end[1..]);
      EscapeAbsent(s, end);
      return s;
    }
    b := "";
    var i := 0;
    while i < |s|
      invariant 0 <= i <= |s|
      invariant b + Escape(s[i..], end) == Escape(s, end)
    {
      assert b + Escape(s[i..], end) == b + EscapedByte(s[i..], end) + Escape(s[i + 1..], end) by {
        assert end != [] && i < |s|;
        assert s[i..][1..] == s[i + 1..];
      }
      if NeedsEscape(s[i..], end) {
        if s[i] == '<' {
          b := b + "&lt;";
        } else {
          b := b + "&amp;";
        }
      } else {
        b := b + [s[i]];
      }
      i := i + 1;
    }
  }

  /** `unescapeToolText`, early exit included. */
  method UnescapeToolText(s: string, end: string) returns (b: string)
    requires end != []
    ensures b == Unescape(s, end)
  {
    if !Contains(s, "&") {
      IndexIsFirst(s, "&");
      UnescapeAbsent(s, end);
      return s;
    }
    b := "";
    var i := 0;
    while i < |s|
      invariant 0 <= i <= |s|
      invariant b + Unescape(s[i..], end) == Unescape(s, end)
    {
      UnescapeStep(b, s, i, end);
      if EscapedClose(s[i..], end) {
        if "&amp;" <= s[i..] {
          b := b + ['&'];
          i := i + 5;
        } else {
          b := b + ['<'];
          i := i + 4;
        }
      } else {
        b := b + [s[i]];
        i := i + 1;
      }
    }
  }

  lemma UnescapeStep(b: string, s: string, i: nat, end: string)
    requires end != [] && i < |s|
    ensures var r := UnescapedByte(s[i..], end);
            b + Unescape(s[i..], end) == b + [r.0] + Unescape(s[i + r.1..], end)
  {
    var r := UnescapedByte(s[i..], end);
    assert s[i..][r.1..] == s[i + r.1..];
  }

  // ----- how an escaped spelling looks -----

  lemma {:induction false} AmpsSplit(s: string)
    ensures s == Amps(AmpCount(s)) + AfterAmps(s)
  {
    if "amp;" <= s {
      AmpsSplit(s[4..]);
      assert s == "amp;" + s[4..];
    }
  }

  lemma {:induction false} AmpsAre(k: nat, t: string)
    requires !("amp;" <= t)
    ensures AfterAmps(Amps(k) + t) == t
  {
    if k == 0 {
      assert Amps(0) + t == t;
    } else {
      var s := Amps(k) + t;
      assert s == "amp;" + (Amps(k - 1) + t);
      assert "amp;" <= s && s[4..] == Amps(k - 1) + t;
      AmpsAre(k - 1, t);
    }
  }

  /** The text after the `&` of an escaped close. */
  function Spelling(k: nat, end: string): (w: string)
    requires end != []
    ensures IsCloseTag(end) ==> Plain(w)
  {
    Amps(k) + "lt;" + end[1..]
  }

  lemma EscapedCloseSpelled(s: string, end: string)
    requires end != [] && EscapedClose(s, end)
    ensures var k := AmpCount(s[1..]); Spelling(k, end) <= s[1..]
  {
    AmpsSplit(s[1..]);
    var k, t := AmpCount(s[1..]), AfterAmps(s[1..]);
    assert s[1..] == Amps(k) + t;
    assert t == "lt;" + end[1..] + t[3 + |end[1..]|..];
    assert s[1..] == Spelling(k, end) + t[3 + |end[1..]|..];
  }

  lemma SpelledEscapedClose(s: string, end: string, k: nat)
    requires end != [] && "&" <= s && Spelling(k, end) <= s[1..]
    ensures EscapedClose(s, end)
  {
    var w := Spelling(k, end);
    var t := "lt;" + end[1..] + s[1 + |w|..];
    assert s[1..] == w + s[1..][|w|..] && s[1..][|w|..] == s[1 + |w|..];
    assert s[1..] == Amps(k) + t;
    assert t[0] == 'l';
    AmpsAre(k, t);
    assert t[3..] == end[1..] + s[1 + |w|..];
  }

  // ----- plain text passes through -----

  lemma {:induction false} EscapeKeepsPlain(w: string, t: string, end: string)
    requires IsCloseTag(end) && Plain(w)
    ensures Escape(w + t, end) == w + Escape(t, end)
  {
    if w == [] {
      assert w + t == t;
    } else {
      var s := w + t;
      assert s[0] == w[0] && s[1..] == w[1..] + t;
      assert EscapedByte(s, end) == [w[0]];
      EscapeKeepsPlain(w[1..], t, end);
      assert w == [w[0]] + w[1..];
    }
  }

  lemma {:induction false} EscapeShowsPlain(w: string, t: string, end: string)
    requires IsCloseTag(end) && Plain(w)
    ensures w <= Escape(t, end) ==> w <= t
  {
    if w != [] && w <= Escape(t, end) {
      var h := EscapedByte(t, end);
      assert w[0] == Escape(t, end)[0] == h[0];
      assert h == [t[0]];
      assert Escape(t, end)[1..] == Escape(t[1..], end);
      EscapeShowsPlain(w[1..], t[1..], end);
      assert w == [w[0]] + w[1..] && t == [t[0]] + t[1..];
    }
  }

  lemma PlainPrefixEscaped(w: string, t: string, end: string)
    requires IsCloseTag(end) && Plain(w) && w <= t
    ensures w <= Escape(t, end)
  {
    assert t == w + t[|w|..];
    EscapeKeepsPlain(w, t[|w|..], end);
  }

  // ----- the codec's three laws -----

  /** Unescaping inverts escaping, for every body and every close tag. */
  lemma {:induction false} RoundTrip(s: string, end: string)
    requires IsCloseTag(end)
    ensures Unescape(Escape(s, end), end) == s
  {
    if s != [] {
      RoundTrip(s[1..], end);
      EscapedByteReadsBack(s, end);
      var e := Escape(s[1..], end);
      assert (EscapedByte(s, end) + e)[|EscapedByte(s, end)|..] == e;
    }
  }

  lemma EscapedByteReadsBack(s: string, end: string)
    requires IsCloseTag(end) && s != []
    ensures UnescapedByte(Escape(s, end), end) == (s[0], |EscapedByte(s, end)|)
  {
    if end <= s {
      PlainPrefixEscaped(end[1..], s[1..], end);
      EscapedTagReads(Escape(s[1..], end), end);
    } else if EscapedClose(s, end) {
      EscapedCloseSpelled(s, end);
      var k := AmpCount(s[1..]);
      PlainPrefixEscaped(Spelling(k, end), s[1..], end);
      EscapedAmpReads(Escape(s[1..], end), end, k);
    } else {
      EscapedCloseWasThere(s, end);
      assert Escape(s, end)[0] == s[0];
    }
  }

  lemma EscapedTagReads(e: string, end: string)
    requires end != [] && end[1..] <= e
    ensures UnescapedByte("&lt;" + e, end) == ('<', 4)
  {
    var r := "&lt;" + e;
    assert Amps(0) == "" && Spelling(0, end) == "lt;" + end[1..];
    assert r[1..] == "lt;" + e;
    assert e == end[1..] + e[|end[1..]|..];
    assert r[1..] == Spelling(0, end) + e[|end[1..]|..];
    SpelledEscapedClose(r, end, 0);
    assert r[1] == 'l';
  }

  lemma EscapedAmpReads(e: string, end: string, k: nat)
    requires end != [] && Spelling(k, end) <= e
    ensures UnescapedByte("&amp;" + e, end) == ('&', 5)
  {
    var r, w := "&amp;" + e, Spelling(k, end);
    assert Spelling(k + 1, end) == "amp;" + w;
    assert e == w + e[|w|..];
    assert r[1..] == "amp;" + e;
    assert r[1..] == Spelling(k + 1, end) + e[|w|..];
    SpelledEscapedClose(r, end, k + 1);
  }

  /** Escaping leaves no escaped close at a byte it did not rewrite. */
  lemma EscapedCloseWasThere(s: string, end: string)
    requires IsCloseTag(end) && s != []
    ensures var r := [s[0]] + Escape(s[1..], end); EscapedClose(r, end) ==> EscapedClose(s, end)
  {
    var t := s[1..];
    var r := [s[0]] + Escape(t, end);
    assert r[1..] == Escape(t, end);
    if EscapedClose(r, end) {
      EscapedCloseSpelled(r, end);
      var k := AmpCount(Escape(t, end));
      EscapeShowsPlain(Spelling(k, end), t, end);
      SpelledEscapedClose(s, end, k);
    }
  }

  /** An escaped body never contains its close tag. */
  lemma {:induction false} EscapedBodyStaysOpen(s: string, end: string)
    requires IsCloseTag(end)
    ensures !Contains(Escape(s, end), end)
  {
    if s != [] {
      EscapedBodyStaysOpen(s[1..], end);
      CloseWasThere(s, end);
      var head, e := EscapedByte(s, end), Escape(s[1..], end);
      IndexIsFirst(e, end);
      IndexIsFirst(head + e, end);
      assert forall j :: 0 < j < |head| ==> head[j] != '<';
      assert head[0] == '<' ==> head == [s[0]];
      forall j | 0 <= j <= |head + e| ensures !(end <= (head + e)[j..]) {
        assert
          && (j > 0 ==> !(end <= (head + e)[j..]))
          && (head[0] != '<' ==> !(end <= (head + e)[j..])) by {
          var r := head + e;
          if j >= |head| {
            assert r[j..] == e[j - |head|..];
          } else {
            assert r[j..][0] == head[j];
          }
        }
        assert (head + e)[0..] == head + e;
      }
    }
  }

  lemma CloseWasThere(s: string, end: string)
    requires IsCloseTag(end) && s != []
    ensures end <= [s[0]] + Escape(s[1..], end) ==> end <= s
  {
    var r := [s[0]] + Escape(s[1..], end);
    assert r[1..] == Escape(s[1..], end);
    EscapeShowsPlain(end[1..], s[1..], end);
    assert end == [end[0]] + end[1..] && s == [s[0]] + s[1..];
    if end <= r {
      assert end[1..] <= r[1..];
    }
  }

  /** The first close tag after a body without one is where the body ends. */
  lemma FirstCloseEndsBody(body: string, end: string, rest: string)
    requires IsCloseTag(end) && !Contains(body, end)
    ensures Index(body + end + rest, end) == |body|
  {
    var s := body + end + rest;
    IndexIsFirst(body, end);
    assert s[|body|..] == end + rest;
    forall j | 0 <= j < |body| ensures !(end <= s[j..]) {
      CloseInsideBody(body, end, rest, j);
    }
    IndexIs(s, end, |body|);
  }

  /** Behind an escaped body the first close tag is the one that was written. */
  lemma EscapedBodyEndsAtTag(s: string, end: string, rest: string)
    requires IsCloseTag(end)
    ensures Index(Escape(s, end) + end + rest, end) == |Escape(s, end)|
  {
    hide Escape, Index;
    EscapedBodyStaysOpen(s, end);
    FirstCloseEndsBody(Escape(s, end), end, rest);
  }

  lemma CloseInsideBody(body: string, end: string, rest: string, j: nat)
    requires IsCloseTag(end) && j < |body|
    ensures end <= (body + end + rest)[j..] ==> end <= body[j..]
  {
    var s := body + end + rest;
    if j + |end| <= |body| {
      assert s[j..][..|end|] == body[j..][..|end|];
    } else {
      var m := |body| - j;
      assert s[j..][m] == end[0];
      assert end[m] == end[1..][m - 1] != '<';
    }
  }

  // ----- early exits -----

  /** A byte is rewritten only in front of the delimiter's tail. */
  lemma RewrittenBeforeTail(s: string, end: string)
    requires IsCloseTag(end)
    ensures NeedsEscape(s, end) ==> exists j :: 0 < j <= |s| && end[1..] <= s[j..]
  {
    if end <= s {
      assert end[1..] <= s[1..];
    } else if EscapedClose(s, end) {
      EscapedCloseSpelled(s, end);
      var k := AmpCount(s[1..]);
      var w := Spelling(k, end);
      var m := |Amps(k)| + 3;
      assert w[m..] == end[1..];
      assert s[1..] == w + s[1..][|w|..];
      assert s[1 + m..] == s[1..][m..] == w[m..] + s[1..][|w|..];
      assert end[1..] <= s[1 + m..];
    }
  }

  lemma {:induction false} EscapeAbsent(s: string, end: string)
    requires IsCloseTag(end) && forall j :: 0 <= j <= |s| ==> !(end[1..] <= s[j..])
    ensures Escape(s, end) == s
  {
    if s != [] {
      RewrittenBeforeTail(s, end);
      forall j | 0 <= j <= |s[1..]| ensures !(end[1..] <= s[1..][j..]) {
        assert s[1..][j..] == s[j + 1..];
      }
      EscapeAbsent(s[1..], end);
    }
  }

  /** Text without an escaped close reads as itself. */
  lemma {:induction false} UnescapeAbsent(s: string, end: string)
    requires end != [] && forall j :: 0 <= j <= |s| ==> !EscapedClose(s[j..], end) || !("&" <= s[j..])
    ensures Unescape(s, end) == s
  {
    if s != [] {
      forall j | 0 <= j <= |s[1..]| ensures !EscapedClose(s[1..][j..], end) || !("&" <= s[1..][j..]) {
        assert s[1..][j..] == s[j + 1..];
      }
      assert s[0..] == s;
      UnescapeAbsent(s[1..], end);
    }
  }

  predicate HasEscapedClose(s: string, end: string)
    requires end != []
  {
    exists j :: 0 <= j <= |s| && EscapedClose(s[j..], end)
  }

  /** Unescaping changes a text exactly when an escaped close occurs in it, and then shortens it. */
  lemma UnescapeShortens(s: string, end: string)
    requires end != []
    ensures Unescape(s, end) == s <==> !HasEscapedClose(s, end)
    ensures HasEscapedClose(s, end) ==> |Unescape(s, end)| < |s|
    ensures |Unescape(s, end)| <= |s|
  {
    if !HasEscapedClose(s, end) {
      UnescapeAbsent(s, end);
    }
    UnescapeStrictlyShorter(s, end);
  }

  lemma {:induction false} UnescapeStrictlyShorter(s: string, end: string)
    requires end != []
    ensures |Unescape(s, end)| <= |s|
    ensures HasEscapedClose(s, end) ==> |Unescape(s, end)| < |s|
  {
    if s != [] {
      UnescapeStrictlyShorter(s[UnescapedByte(s, end).1..], end);
      if HasEscapedClose(s, end) && !EscapedClose(s, end) {
        var j :| 0 <= j <= |s| && EscapedClose(s[j..], end);
        assert s[0..] == s;
        assert s[j..] == s[1..][j - 1..];
      }
    }
  }
}
