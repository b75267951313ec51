/** Which texts are prefix files, and what they say (prompt_prefix.go:23-97). */
module PrefixSpelling {
  import opened Text
  import opened PromptPrefix

  /** A turn as a file may spell it: with or without a blank behind the marker, and one of three ends. */
  datatype Spelled = Spelled(turn: Turn, gap: string, end: string)

  function Spell(w: Spelled): string {
    Marker(w.turn.role) + w.gap + (w.turn.content + w.end)
  }

  function File(ws: seq<Spelled>): string {
    if ws == [] then "" else Spell(ws[0]) + File(ws[1..])
  }

  function TurnsIn(ws: seq<Spelled>): (ts: seq<Turn>)
    ensures |ts| == |ws|
  {
    if ws == [] then [] else [ws[0].turn] + TurnsIn(ws[1..])
  }

  /** No line after the first opens a marker. */
  predicate NoMarkerLine(c: string) {
    forall j :: 0 < j < |c| && c[j - 1] == '\n' ==> MarkerOf(c[j..]).None?
  }

  predicate GoodTurn(t: Turn) {
    t.content != "" && '\0' !in t.content && NoMarkerLine(t.content)
  }

  /** Only what belongs to the content is read as content. */
  predicate Good(w: Spelled, last: bool) {
    && GoodTurn(w.turn)
    && var c := w.turn.content;
       && (w.gap == " " || w.gap == "\t" || (w.gap == "" && c[0] != ' ' && c[0] != '\t'))
       && (w.end == "\r\n" || (w.end == "\n" && c[|c| - 1] != '\r') || (last && w.end == "" && c[|c| - 1] != '\n'))
  }

  predicate Fits(ws: seq<Spelled>, role: Role) {
    if ws == [] then role == User else ws[0].turn.role == role && Good(ws[0], |ws| == 1) && Fits(ws[1..], Other(role))
  }

  /** Users and assistants take turns, an assistant last. */
  predicate Alternates(ts: seq<Turn>, role: Role) {
    && |ts| % 2 == (if role == User then 0 else 1)
    && forall i :: 0 <= i < |ts| ==> ts[i].role == if i % 2 == 0 then role else Other(role)
  }

  // ----- what is spelled is read -----

  lemma {:induction false} EndFound(c: string, end: string, rest: string)
    requires NoMarkerLine(c) && c + end != ""
    requires end == "\n" || end == "\r\n" || (end == "" && rest == "")
    requires rest == "" || MarkerOf(rest).Some?
    ensures TurnEnd(c + end + rest) == |c + end|
  {
    hide MarkerOf;
    var r := c + end + rest;
    if c == "" {
      EndOnly(end, rest);
      assert r == end + rest;
    } else {
      assert r[1..] == c[1..] + end + rest;
      assert forall j :: 0 < j < |c[1..]| ==> c[1..][j - 1] == c[j] && c[1..][j..] == c[j + 1..];
      if c[1..] + end != "" {
        EndFound(c[1..], end, rest);
        NotHere(c, end, rest);
      } else {
        assert r == c;
        assert r[1..] == "";
        MarkerNeeds("");
      }
    }
  }

  lemma EndOnly(end: string, rest: string)
    requires end == "\n" || end == "\r\n"
    requires rest == "" || MarkerOf(rest).Some?
    ensures TurnEnd(end + rest) == |end|
  {
    hide MarkerOf;
    var r := end + rest;
    MarkerNeeds("");
    if end == "\n" {
      assert r[1..] == rest;
    } else {
      assert r[1..] == "\n" + rest;
      assert r[1..][1..] == rest;
      assert r[0] == '\r';
    }
  }

  lemma MarkerNeeds(r: string)
    ensures MarkerOf(r).Some? ==> r != "" && (r[0] == 'U' || r[0] == 'A')
  {}

  /** A marker has no line break: what follows the line does not make one. */
  lemma MarkerWithin(r: string, ext: string)
    requires MarkerOf(r).None? && (ext == "" || ext[0] == '\n' || ext[0] == '\r')
    ensures MarkerOf(r + ext).None?
  {
    WithinOne(r, ext, User);
    WithinOne(r, ext, Assistant);
  }

  lemma WithinOne(r: string, ext: string, role: Role)
    requires ext == "" || ext[0] == '\n' || ext[0] == '\r'
    ensures Marker(role) <= r + ext ==> Marker(role) <= r
  {
    if Marker(role) <= r + ext {
      assert Marker(role) <= r || (ext != "" && ext[0] in Marker(role)) by {
        if |r| < |Marker(role)| {
          assert Marker(role)[|r|] == (r + ext)[|r|];
        } else {
          assert Marker(role) == (r + ext)[..|Marker(role)|] == r[..|Marker(role)|];
        }
      }
    }
  }

  lemma NotHere(c: string, end: string, rest: string)
    requires NoMarkerLine(c) && c != "" && c[1..] + end != ""
    requires end == "\n" || end == "\r\n" || (end == "" && rest == "")
    ensures c[0] == '\n' ==> MarkerOf((c + end + rest)[1..]).None?
  {
    hide MarkerOf;
    assert (c + end + rest)[1..] == c[1..] + (end + rest);
    if |c| > 1 {
      if c[0] == '\n' {
        MarkerWithin(c[1..], end + rest);
      }
    } else {
      MarkerNeeds(end + rest);
      assert c[1..] + (end + rest) == end + rest;
    }
  }

  lemma ContentKept(w: Spelled, last: bool)
    requires Good(w, last)
    ensures CutBreak(w.turn.content + w.end) == w.turn.content
  {
    hide NoMarkerLine;
  }

  lemma BodyOf(w: Spelled, last: bool, rest: string)
    requires Good(w, last)
    ensures MarkerOf(Spell(w) + rest) == Some(w.turn.role) && Marker(w.turn.role) <= Spell(w) + rest
    ensures Body(Spell(w) + rest, w.turn.role) == w.turn.content + w.end + rest
  {
    hide NoMarkerLine;
    var m := Marker(w.turn.role);
    var r := Spell(w) + rest;
    var b := w.gap + (w.turn.content + w.end + rest);
    assert r == m + b;
    assert r[|m|..] == b;
    assert w.gap != "" ==> b[1..] == w.turn.content + w.end + rest;
    assert m[0] == r[0];
  }

  lemma FileOpens(ws: seq<Spelled>, role: Role)
    requires Fits(ws, role) && ws != []
    ensures MarkerOf(File(ws)).Some? && File(ws) != ""
  {
    hide Good;
    assert Marker(role) <= Spell(ws[0]) <= File(ws);
    Opens(File(ws), role);
  }

  lemma Opens(r: string, role: Role)
    requires Marker(role) <= r
    ensures MarkerOf(r) == Some(role)
  {
    assert r[0] == Marker(role)[0];
  }

  lemma {:induction false} SpelledTurns(ws: seq<Spelled>, role: Role, line: nat)
    requires Fits(ws, role)
    ensures TurnsOf(File(ws), role, line) == Turns(TurnsIn(ws))
  {
    hide TurnsOf, Body, MarkerOf, TurnEnd, CutBreak, Good, Spell, Breaks;
    if ws == [] {
      NoMoreTurns([], role, line);
      AfterNone(TurnsOf("", role, line));
    } else {
      var w, rest := ws[0], File(ws[1..]);
      var r, c := Spell(w) + rest, w.turn.content + w.end;
      if ws[1..] != [] {
        FileOpens(ws[1..], Other(role));
      }
      BodyOf(w, |ws| == 1, rest);
      GoodEnd(w, |ws| == 1);
      EndFound(w.turn.content, w.end, rest);
      ContentKept(w, |ws| == 1);
      assert (c + rest)[..|c|] == c && (c + rest)[|c|..] == rest;
      SpelledTurns(ws[1..], Other(role), line + Breaks(c));
      MarkerNeeds(r);
      UnfoldTurn(r, role, line);
    }
  }

  lemma GoodEnd(w: Spelled, last: bool)
    requires Good(w, last)
    ensures w.turn.content != "" && NoMarkerLine(w.turn.content) &&
            (w.end == "\n" || w.end == "\r\n" || (last && w.end == ""))
  {}

  /** With or without the byte order mark, a file is read as the turns it spells. */
  lemma SpelledReadsBack(ws: seq<Spelled>, bom: string)
    requires Fits(ws, User) && ws != [] && (bom == BOM || bom == "")
    ensures ReadPrefix(bom + File(ws)) == Turns(TurnsIn(ws))
  {
    hide Good, TurnsOf, MarkerOf, File;
    var data := bom + File(ws);
    FileOpens(ws, User);
    MarkerNeeds(File(ws));
    NoNul(ws, User);
    BomCut(bom, File(ws));
    SpelledTurns(ws, User, 1);
    FitsAlternate(ws, User);
    ReadIs(data, Turns(TurnsIn(ws)));
  }

  lemma BomCut(bom: string, file: string)
    requires (bom == BOM || bom == "") && file != "" && (file[0] == 'U' || file[0] == 'A')
    ensures DropBom(bom + file) == file
  {
    if bom == "" {
      assert bom + file == file;
    }
  }

  lemma {:induction false} NoNul(ws: seq<Spelled>, role: Role)
    requires Fits(ws, role)
    ensures '\0' !in File(ws)
  {
    hide NoMarkerLine;
    if ws != [] {
      NoNul(ws[1..], Other(role));
      assert '\0' !in Spell(ws[0]);
    }
  }

  lemma {:induction false} FitsAlternate(ws: seq<Spelled>, role: Role)
    requires Fits(ws, role)
    ensures Alternates(TurnsIn(ws), role) && forall i ::
            0 <= i < |ws| ==> TurnsIn(ws)[i] == ws[i].turn && GoodTurn(ws[i].turn)
  {
    hide GoodTurn;
    if ws != [] {
      FitsAlternate(ws[1..], Other(role));
      var ts := TurnsIn(ws);
      forall i | 0 <= i < |ws|
        ensures ts[i] == ws[i].turn && GoodTurn(ws[i].turn) && ts[i].role == if i % 2 == 0 then role else Other(role)
      {
        if i > 0 {
          assert ts[i] == TurnsIn(ws[1..])[i - 1] && ws[i] == ws[1..][i - 1];
        }
      }
    }
  }

  // ----- what is read is spelled -----

  /** The spelling of the turns of a text. */
  function Spelling(r: string, role: Role): seq<Spelled>
    decreases |r|
  {
    if r == "" || MarkerOf(r) != Some(role) || !(Marker(role) <= r) then []
    else
      var b := Body(r, role);
      var n := TurnEnd(b);
      var c := CutBreak(b[..n]);
      [Spelled(Turn(role, c), r[|Marker(role)|..|r| - |b|], b[|c|..n])] + Spelling(b[n..], Other(role))
  }

  lemma {:induction false} EndIs(b: string)
    ensures TurnEnd(b) == |b| || (TurnEnd(b) > 0 && b[TurnEnd(b) - 1] == '\n')
    ensures forall j :: 0 < j < TurnEnd(b) && b[j - 1] == '\n' ==> MarkerOf(b[j..]).None?
  {
    hide MarkerOf;
    if b != "" {
      EndIs(b[1..]);
      var n := TurnEnd(b);
      forall j | 0 < j < n && b[j - 1] == '\n' ensures MarkerOf(b[j..]).None? {
        if j > 1 {
          assert b[j..] == b[1..][j - 1..] && b[1..][j - 2] == '\n';
        }
      }
      if n > 1 {
        assert b[n - 1] == b[1..][n - 2];
      }
    }
  }

  lemma MarkerShorter(r: string, n: nat)
    requires n <= |r| && MarkerOf(r).None?
    ensures MarkerOf(r[..n]).None?
  {}

  lemma PieceIsGood(r: string, role: Role, last: bool)
    requires '\0' !in r && MarkerOf(r) == Some(role) && Marker(role) <= r
    requires var b := Body(r, role); var n := TurnEnd(b); CutBreak(b[..n]) != "" && (last || n < |b|)
    ensures Spelling(r, role) != [] && Good(Spelling(r, role)[0], last)
    ensures var b := Body(r, role); var n := TurnEnd(b); Spell(Spelling(r, role)[0]) + b[n..] == r
  {
    hide MarkerOf, TurnEnd, GoodTurn, NoMarkerLine, CutBreak, Marker, Body;
    var b := Body(r, role);
    var n := TurnEnd(b);
    var c := CutBreak(b[..n]);
    EndIs(b);
    PieceIsTurn(b, role);
    EndSpelled(b[..n]);
    assert b[..n][|c|..] == b[|c|..n];
    assert n > 0 && b[..n][n - 1] == b[n - 1];
    GapSpelled(r, role, c);
    assert b == c + b[|c|..n] + b[n..];
  }

  lemma GapSpelled(r: string, role: Role, c: string)
    requires Marker(role) <= r && c != "" && c <= Body(r, role)
    ensures var b := Body(r, role); var gap := r[|Marker(role)|..|r| - |b|];
            && r == Marker(role) + gap + b
            && (gap == " " || gap == "\t" || (gap == "" && c[0] != ' ' && c[0] != '\t'))
  {
    var m := Marker(role);
    assert r == m + r[|m|..];
  }

  lemma EndSpelled(s: string)
    requires CutBreak(s) != ""
    ensures var c := CutBreak(s);
            var end := s[|c|..];
            && s == c + end
            && (end == "\r\n" || (end == "\n" && c[|c| - 1] != '\r') ||
               (end == "" && s[|s| - 1] != '\n' && c[|c| - 1] != '\n'))
  {}

  lemma PieceIsTurn(b: string, role: Role)
    requires '\0' !in b && CutBreak(b[..TurnEnd(b)]) != ""
    ensures GoodTurn(Turn(role, CutBreak(b[..TurnEnd(b)])))
  {
    hide MarkerOf, TurnEnd;
    var c := CutBreak(b[..TurnEnd(b)]);
    EndIs(b);
    forall j | 0 < j < |c| && c[j - 1] == '\n' ensures MarkerOf(c[j..]).None? {
      assert b[j - 1] == '\n';
      assert c[j..] == b[j..][..|c| - j];
      MarkerShorter(b[j..], |c| - j);
    }
  }

  lemma {:induction false} TurnsAreSpelled(r: string, role: Role, line: nat)
    requires '\0' !in r && TurnsOf(r, role, line).Turns?
    requires var ts := TurnsOf(r, role, line).turns; if ts == [] then role == User else ts[|ts| - 1].role == Assistant
    ensures var ws := Spelling(r, role); Fits(ws, role) && File(ws) == r && TurnsIn(ws) == TurnsOf(r, role, line).turns
    decreases |r|
  {
    hide TurnsOf, Good, MarkerOf, Spell, Breaks, CutBreak, TurnEnd, Body;
    if r == "" {
      NoMoreTurns([], role, line);
      AfterNone(TurnsOf("", role, line));
    } else {
      UnfoldTurn(r, role, line);
      MarkerHolds(r);
      var b := Body(r, role);
      var n := TurnEnd(b);
      var ws := Spelling(r, role);
      var rest := TurnsOf(b[n..], Other(role), line + Breaks(b[..n]));
      assert TurnsOf(r, role, line).turns == [Turn(role, CutBreak(b[..n]))] + rest.turns;
      TurnsAreSpelled(b[n..], Other(role), line + Breaks(b[..n]));
      assert b[n..] == "" <==> Spelling(b[n..], Other(role)) == [];
      PieceIsGood(r, role, n == |b|);
      assert ws == [ws[0]] + Spelling(b[n..], Other(role));
    }
  }

  /** A text is read as a prefix file exactly when it spells one; then the turns are the ones it spells. */
  lemma ReadWhenSpelled(data: string)
    ensures ReadPrefix(data).Turns? <==> IsFile(data)
    ensures ReadPrefix(data).Turns? ==>
              var ws := Spelling(DropBom(data), User); var ts := ReadPrefix(data).turns;
              && Fits(ws, User) && File(ws) == DropBom(data) && TurnsIn(ws) == ts
              && ts != [] && Alternates(ts, User) && forall i :: 0 <= i < |ts| ==> GoodTurn(ts[i])
  {
    hide TurnsOf, Fits, File, GoodTurn, Spelling;
    if ReadPrefix(data).Turns? {
      var r := DropBom(data);
      TurnsAreSpelled(r, User, 1);
      var ws := Spelling(r, User);
      FitsAlternate(ws, User);
      assert data == DropBom(data) || data == BOM + DropBom(data);
      assert Spells(data, ws);
    }
    if IsFile(data) {
      var ws: seq<Spelled> :| Spells(data, ws);
      SpelledReadsBack(ws, if data == BOM + File(ws) then BOM else "");
      assert "" + File(ws) == File(ws);
    }
  }

  ghost predicate Spells(data: string, ws: seq<Spelled>) {
    ws != [] && Fits(ws, User) && (data == File(ws) || data == BOM + File(ws))
  }

  ghost predicate IsFile(data: string) {
    exists ws: seq<Spelled> :: Spells(data, ws)
  }

  // ----- one spelling for every list of turns -----

  /** A blank behind the marker, a line feed at the end. */
  function Render(ts: seq<Turn>): string {
    File(Plainly(ts))
  }

  function Plainly(ts: seq<Turn>): (ws: seq<Spelled>)
    ensures |ws| == |ts|
  {
    if ts == [] then [] else [Spelled(ts[0], " ", "\n")] + Plainly(ts[1..])
  }

  /** No content ends in a carriage return: the reader would take it for part of the line break. */
  predicate NoReturnEnds(ts: seq<Turn>) {
    forall i :: 0 <= i < |ts| ==> ts[i].content != "" && ts[i].content[|ts[i].content| - 1] != '\r'
  }

  predicate Writable(ts: seq<Turn>) {
    ts != [] && Alternates(ts, User) && NoReturnEnds(ts) && forall i :: 0 <= i < |ts| ==> GoodTurn(ts[i])
  }

  /** Written plainly, exactly the writable lists of turns are read back. */
  lemma RenderReadsBack(ts: seq<Turn>)
    ensures ReadPrefix(Render(ts)) == Turns(ts) <==> Writable(ts)
  {
    hide GoodTurn, Fits, ReadPrefix, NoReturnEnds, Alternates;
    if Writable(ts) {
      PlainlyFits(ts, User);
      SpelledReadsBack(Plainly(ts), "");
      assert "" + Render(ts) == Render(ts);
    }
    if ReadPrefix(Render(ts)) == Turns(ts) {
      var data := Render(ts);
      ReadWhenSpelled(data);
      RenderHasNoBom(ts);
      PlainlyTurns(ts);
      SameFile(Spelling(DropBom(data), User), Plainly(ts), User);
    }
  }

  lemma {:induction false} PlainlyTurns(ts: seq<Turn>)
    ensures TurnsIn(Plainly(ts)) == ts
    ensures forall i :: 0 <= i < |ts| ==> Plainly(ts)[i] == Spelled(ts[i], " ", "\n")
  {
    if ts != [] {
      PlainlyTurns(ts[1..]);
    }
  }

  lemma RenderHasNoBom(ts: seq<Turn>)
    ensures DropBom(Render(ts)) == Render(ts)
  {
    hide Plainly;
    if ts != [] {
      PlainlyTurns(ts);
      assert Marker(ts[0].role) <= Spell(Plainly(ts)[0]) <= Render(ts);
      assert Render(ts)[0] == Marker(ts[0].role)[0];
    }
  }

  lemma {:induction false} PlainlyFits(ts: seq<Turn>, role: Role)
    requires Alternates(ts, role) && NoReturnEnds(ts) && forall i :: 0 <= i < |ts| ==> GoodTurn(ts[i])
    ensures Fits(Plainly(ts), role) && TurnsIn(Plainly(ts)) == ts
  {
    hide GoodTurn;
    if ts != [] {
      var rest := ts[1..];
      assert forall i :: 0 <= i < |rest| ==> rest[i] == ts[i + 1];
      PlainlyFits(rest, Other(role));
      assert Good(Spelled(ts[0], " ", "\n"), |ts| == 1) by {
        assert ts[0].content != "";
      }
    }
  }

  /** Two files of the same turns: if one of them is plain and the other fits, no content ends in a return. */
  lemma {:induction false} SameFile(ws: seq<Spelled>, plain: seq<Spelled>, role: Role)
    requires Fits(ws, role) && TurnsIn(ws) == TurnsIn(plain) && File(ws) == File(plain)
    requires forall i :: 0 <= i < |plain| ==> plain[i].gap == " " && plain[i].end == "\n"
    ensures NoReturnEnds(TurnsIn(ws))
  {
    hide GoodTurn, Good, Spell;
    if ws != [] {
      assert |plain| == |TurnsIn(plain)| == |ws|;
      assert TurnsIn(ws)[0] == ws[0].turn && TurnsIn(plain)[0] == plain[0].turn;
      assert TurnsIn(ws)[1..] == TurnsIn(ws[1..]) && TurnsIn(plain)[1..] == TurnsIn(plain[1..]);
      SameSpelled(ws[0], plain[0], |ws| == 1, File(ws[1..]), File(plain[1..]));
      SameFile(ws[1..], plain[1..], Other(role));
      var ts := TurnsIn(ws);
      assert ts == [ws[0].turn] + TurnsIn(ws[1..]);
    }
  }

  lemma SameSpelled(w: Spelled, p: Spelled, last: bool, wRest: string, pRest: string)
    requires Good(w, last) && w.turn == p.turn && p.gap == " " && p.end == "\n" && (last ==> wRest == "")
    requires Spell(w) + wRest == Spell(p) + pRest
    ensures w == p && wRest == pRest
    ensures w.turn.content != "" && w.turn.content[|w.turn.content| - 1] != '\r'
  {
    var m, c := Marker(w.turn.role), w.turn.content;
    assert Spell(w) + wRest == m + (w.gap + (c + (w.end + wRest)));
    assert Spell(p) + pRest == m + (" " + (c + ("\n" + pRest)));
    Cancel(m, w.gap + (c + (w.end + wRest)), " " + (c + ("\n" + pRest)));
    var tail := c + (w.end + wRest);
    assert tail[0] == c[0];
    GapRead(w.gap, tail, c + ("\n" + pRest));
    Cancel(" ", c + (w.end + wRest), c + ("\n" + pRest));
    Cancel(c, w.end + wRest, "\n" + pRest);
    assert w.end == "" ==> w.end + wRest == "";
    assert (w.end + wRest)[0] == '\n';
    Cancel("\n", wRest, pRest);
  }

  lemma GapRead(gap: string, tail: string, u: string)
    requires gap + tail == " " + u && tail != "" && (gap == "" || gap == " " || gap == "\t")
    ensures gap == " " || (gap == "" && tail[0] == ' ')
  {
    assert (gap + tail)[0] == ' ';
  }

  lemma Cancel(a: string, b: string, c: string)
    requires a + b == a + c
    ensures b == c
  {
    assert b == (a + b)[|a|..];
  }
}
