/** The prefix-file format (prompt_prefix.go): turns that open with a marker line. */
module PromptPrefix {
  import opened Text

  datatype Role = User | Assistant

  datatype Turn = Turn(role: Role, content: string)

  /** The errors, with the line they name. */
  datatype Problem =
    | EmptyFile
    | HoldsNul
    | NoMarker(line: nat)
    | Expected(line: nat, role: Role)
    | EmptyTurn(line: nat, role: Role)
    | NoTurns
    | EndsWithUser

  datatype Read = Turns(turns: seq<Turn>) | Failed(problem: Problem)

  const BOM := "\U{EF}\U{BB}\U{BF}"

  function Marker(role: Role): (m: string)
    ensures m != ""
  {
    if role == User then "USER:" else "ASSISTANT:"
  }

  function Other(role: Role): Role {
    if role == User then Assistant else User
  }

  /** `prefixMarkerAt`. */
  function MarkerOf(r: string): Option<Role> {
    if Marker(User) <= r then Some(User) else if Marker(Assistant) <= r then Some(Assistant) else None
  }

  /** How far the turn that starts here runs: to the next line that opens a marker. */
  function TurnEnd(r: string): (n: nat)
    ensures n <= |r| && (r != "" ==> 0 < n)
  {
    if r == "" then 0
    else if r[0] == '\n' && MarkerOf(r[1..]).Some? then 1
    else 1 + TurnEnd(r[1..])
  }

  /** Without one line break at the end. */
  function CutBreak(s: string): (r: string)
    ensures r <= s
  {
    var n := |s|;
    if n == 0 || s[n - 1] != '\n' then s
    else if n >= 2 && s[n - 2] == '\r' then s[..n - 2]
    else s[..n - 1]
  }

  function Breaks(s: string): nat {
    if s == "" then 0 else (if s[0] == '\n' then 1 else 0) + Breaks(s[1..])
  }

  /** The text behind a marker, without the one blank that may follow it. */
  function Body(r: string, role: Role): (b: string)
    requires Marker(role) <= r
    ensures |b| < |r| && b == r[|r| - |b|..]
  {
    var b := r[|Marker(role)|..];
    if b != "" && (b[0] == ' ' || b[0] == '\t') then b[1..] else b
  }

  /** The turns of a text in which the next one is to be `role`'s. */
  function TurnsOf(r: string, role: Role, line: nat): Read
    decreases |r|, 1
  {
    if r == "" then Turns([]) else TurnAt(r, role, line)
  }

  function TurnAt(r: string, role: Role, line: nat): Read
    requires r != ""
    decreases |r|, 0
  {
    match MarkerOf(r)
    case None => Failed(NoMarker(line))
    case Some(found) =>
      if found != role then Failed(Expected(line, role))
      else
        var b := Body(r, role);
        var n := TurnEnd(b);
        if CutBreak(b[..n]) == "" then Failed(EmptyTurn(line, role))
        else Before(Turn(role, CutBreak(b[..n])), TurnsOf(b[n..], Other(role), line + Breaks(b[..n])))
  }

  function Before(t: Turn, read: Read): Read {
    match read
    case Turns(ts) => Turns([t] + ts)
    case Failed(_) => read
  }

  function DropBom(data: string): string {
    if BOM <= data then data[|BOM|..] else data
  }

  function Finished(read: Read): Read {
    match read
    case Failed(_) => read
    case Turns(ts) => if ts == [] then Failed(NoTurns)
        else if ts[|ts| - 1].role != Assistant then Failed(EndsWithUser) else read
  }

  /** `ParsePromptPrefix`, one turn at a time. */
  function ReadPrefix(data: string): Read {
    if data == "" then Failed(EmptyFile)
    else if '\0' in data then Failed(HoldsNul)
    else Finished(TurnsOf(DropBom(data), User, 1))
  }

  // ----- the loops -----

  /** Whose turn follows so many. */
  function NextRole(turns: seq<Turn>): Role {
    if |turns| % 2 == 1 then Assistant else User
  }

  function After(turns: seq<Turn>, read: Read): Read {
    match read
    case Turns(ts) => Turns(turns + ts)
    case Failed(_) => read
  }

  lemma AfterNone(read: Read)
    ensures After([], read) == read
  {
    if read.Turns? {
      assert [] + read.turns == read.turns;
    }
  }

  lemma AfterFailure(turns: seq<Turn>, p: Problem)
    ensures After(turns, Failed(p)) == Failed(p)
  {}

  lemma AfterOneMore(turns: seq<Turn>, t: Turn, read: Read)
    ensures After(turns, Before(t, read)) == After(turns + [t], read)
  {
    if read.Turns? {
      assert turns + ([t] + read.turns) == turns + [t] + read.turns;
    }
  }

  lemma BomDropped(data: string)
    ensures DropBom(data) == data[if BOM <= data then 3 else 0..]
  {
    assert |BOM| == 3;
  }

  lemma UnfoldTurn(r: string, role: Role, line: nat)
    requires r != ""
    ensures TurnsOf(r, role, line) == TurnAt(r, role, line)
  {}

  lemma NoMoreTurns(turns: seq<Turn>, role: Role, line: nat)
    ensures After(turns, TurnsOf("", role, line)) == Turns(turns)
  {
    assert turns + [] == turns;
  }

  /** Where the content behind a marker that ends at `past` starts. */
  function BodyFrom(data: string, past: nat): nat {
    if past < |data| && (data[past] == ' ' || data[past] == '\t') then past + 1 else past
  }

  /** Where it ends, when the next turn starts at `next`. */
  function BodyTo(data: string, start: nat, next: nat): (end: nat)
    requires start <= next <= |data|
    ensures start <= end <= next
  {
    if start < next && data[next - 1] == '\n' then
      if start < next - 1 && data[next - 2] == '\r' then next - 2 else next - 1
    else next
  }

  lemma BodyStarts(data: string, pos: nat, role: Role, start: nat)
    requires pos <= |data| && Marker(role) <= data[pos..]
    requires start == BodyFrom(data, pos + |Marker(role)|)
    ensures start <= |data| && Body(data[pos..], role) == data[start..]
  {}

  lemma CutAt(data: string, start: nat, next: nat)
    requires start <= next <= |data|
    ensures CutBreak(data[start..next]) == data[start..BodyTo(data, start, next)]
  {}

  lemma MarkerHolds(r: string)
    ensures MarkerOf(r).Some? ==> Marker(MarkerOf(r).value) <= r
  {}

  lemma OneMoreByte(data: string, start: nat, i: nat)
    requires start <= i < |data|
    ensures TurnEnd(data[i..]) == if data[i] == '\n' && MarkerOf(data[i + 1..]).Some? then 1
            else 1 + TurnEnd(data[i + 1..])
    ensures MarkerOf("") == None
    ensures Breaks(data[start..i + 1]) == Breaks(data[start..i]) + if data[i] == '\n' then 1 else 0
  {
    hide MarkerOf;
    assert data[i..][1..] == data[i + 1..];
    assert data[start..i + 1] == data[start..i] + [data[i]];
    BreaksAppend(data[start..i], data[i]);
    assert MarkerOf("") == None by {
      NoMarkerInNothing();
    }
  }

  lemma NoMarkerInNothing()
    ensures MarkerOf("") == None
  {}

  lemma {:induction false} BreaksAppend(s: string, c: char)
    ensures Breaks(s + [c]) == Breaks(s) + if c == '\n' then 1 else 0
  {
    if s == "" {
      assert s + [c] == [c];
      assert Breaks([c][1..]) == 0;
    } else {
      assert (s + [c])[1..] == s[1..] + [c];
      BreaksAppend(s[1..], c);
    }
  }

  lemma StepFails(turns: seq<Turn>, r: string, role: Role, line: nat)
    requires r != ""
    ensures MarkerOf(r) == None ==> After(turns, TurnsOf(r, role, line)) == Failed(NoMarker(line))
    ensures MarkerOf(r) == Some(Other(role)) ==> After(turns, TurnsOf(r, role, line)) == Failed(Expected(line, role))
  {}

  lemma Pieces(data: string, start: nat, next: nat)
    requires start <= next <= |data|
    ensures data[start..][..next - start] == data[start..next] && data[start..][next - start..] == data[next..]
  {}

  lemma Step(turns: seq<Turn>, data: string, pos: nat, role: Role, line: nat, start: nat, next: nat)
    requires pos < |data| && start <= next <= |data| && MarkerOf(data[pos..]) == Some(role)
    requires start == BodyFrom(data, pos + |Marker(role)|) && next == start + TurnEnd(data[start..])
    ensures var end := BodyTo(data, start, next);
            After(turns, TurnsOf(data[pos..], role, line)) ==
            if end == start then Failed(EmptyTurn(line, role))
            else After(turns + [Turn(role, data[start..end])],
                       TurnsOf(data[next..], Other(role), line + Breaks(data[start..next])))
  {
    hide TurnsOf, TurnEnd, Breaks, After, Before, Body, CutBreak, MarkerOf, Marker, BodyFrom, BodyTo;
    MarkerHolds(data[pos..]);
    BodyStarts(data, pos, role, start);
    CutAt(data, start, next);
    var end := BodyTo(data, start, next);
    UnfoldTurn(data[pos..], role, line);
    Pieces(data, start, next);
    AfterFailure(turns, EmptyTurn(line, role));
    AfterOneMore(turns, Turn(role, data[start..end]), TurnsOf(data[next..], Other(role), line +
        Breaks(data[start..next])));
  }

  lemma ReadIs(data: string, read: Read)
    requires data != "" && '\0' !in data && TurnsOf(DropBom(data), User, 1) == read
    ensures ReadPrefix(data) == Finished(read)
  {
    hide TurnsOf, DropBom, Finished;
  }

  /** `ParsePromptPrefix`. */
  method ParsePromptPrefix(data: string) returns (read: Read)
    ensures read == ReadPrefix(data)
  {
    hide TurnsOf, TurnEnd, Breaks, DropBom, After, Before, Body, CutBreak, MarkerOf, Marker, ReadPrefix;
    EasyCases(data);
    if |data| == 0 {
      return Failed(EmptyFile);
    }
    if '\0' in data {
      return Failed(HoldsNul);
    }
    ghost var result := TurnsOf(DropBom(data), User, 1);
    ReadIs(data, result);
    AfterNone(result);
    BomDropped(data);
    var pos := if BOM <= data then 3 else 0;
    var line := 1;
    var turns: seq<Turn> := [];
    while pos < |data|
      invariant 0 <= pos <= |data| && 1 <= line
      invariant result == After(turns, TurnsOf(data[pos..], NextRole(turns), line))
    {
      StepFails(turns, data[pos..], NextRole(turns), line);
      MarkerHolds(data[pos..]);
      var marker := MarkerOf(data[pos..]);
      if marker == None {
        return Failed(NoMarker(line));
      }
      var expected := if |turns| % 2 == 1 then Assistant else User;
      if marker.value != expected {
        return Failed(Expected(line, expected));
      }
      var start := pos + |Marker(expected)|;
      if start < |data| && (data[start] == ' ' || data[start] == '\t') {
        start := start + 1;
      }
      var next, nextLine := FindTurnEnd(data, start, line);
      var end := next;
      if start < end && data[end - 1] == '\n' {
        end := end - 1;
        if start < end && data[end - 1] == '\r' {
          end := end - 1;
        }
      }
      Step(turns, data, pos, expected, line, start, next);
      if end == start {
        return Failed(EmptyTurn(line, expected));
      }
      turns := turns + [Turn(expected, data[start..end])];
      pos, line := next, nextLine;
    }
    assert data[pos..] == "";
    NoMoreTurns(turns, NextRole(turns), line);
    if |turns| == 0 {
      return Failed(NoTurns);
    }
    if turns[|turns| - 1].role != Assistant {
      return Failed(EndsWithUser);
    }
    read := Turns(turns);
  }

  lemma EasyCases(data: string)
    ensures data == "" ==> ReadPrefix(data) == Failed(EmptyFile)
    ensures data != "" && '\0' in data ==> ReadPrefix(data) == Failed(HoldsNul)
  {}

  /** The scan for the next marker line. */
  method FindTurnEnd(data: string, start: nat, line: nat) returns (next: nat, nextLine: nat)
    requires start <= |data|
    ensures next == start + TurnEnd(data[start..]) && nextLine == line + Breaks(data[start..next])
  {
    var scanLine := line;
    var i := start;
    while i < |data|
      invariant start <= i <= |data|
      invariant TurnEnd(data[start..]) == i - start + TurnEnd(data[i..])
      invariant scanLine == line + Breaks(data[start..i])
    {
      OneMoreByte(data, start, i);
      if data[i] == '\n' {
        scanLine := scanLine + 1;
        if i + 1 < |data| && MarkerOf(data[i + 1..]).Some? {
          return i + 1, scanLine;
        }
      }
      i := i + 1;
    }
    next, nextLine := |data|, scanLine;
  }
}
