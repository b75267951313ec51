/** Byte strings and the handful of string primitives the codec is written with.
    Every `char` stands for one byte: the decoder cuts its input at arbitrary bytes,
    so multi-byte characters are spelled out. */
module Text {
  datatype Option<+T> = None | Some(value: T)

  /** `strings.Index`: where `p` first occurs in `s`, or -1. */
  function Index(s: string, p: string): (r: int)
    ensures -1 <= r
    ensures r >= 0 ==> r + |p| <= |s|
  {
    if p <= s then 0
    else if s == [] then -1
    else var r := Index(s[1..], p); if r < 0 then -1 else r + 1
  }

  lemma {:induction false} IndexIsFirst(s: string, p: string)
    ensures var r := Index(s, p);
            && (r >= 0 ==> p <= s[r..])
            && (forall j :: 0 <= j < (if r < 0 then |s| + 1 else r) ==> !(p <= s[j..]))
  {
    if !(p <= s) && s != [] {
      IndexIsFirst(s[1..], p);
      assert forall j :: 0 < j <= |s| ==> s[j..] == s[1..][j - 1..];
    }
    assert s[0..] == s;
  }

  predicate Contains(s: string, p: string) {
    Index(s, p) >= 0
  }

  predicate IsAsciiSpace(c: char) {
    c == ' ' || c == '\t' || c == '\n' || c == '\r'
  }

  /** The text from `i` on. */
  function From(s: string, i: int): string {
    if 0 <= i <= |s| then s[i..] else ""
  }

  /** The text in front of `i`. */
  function Until(s: string, i: int): string {
    if 0 <= i <= |s| then s[..i] else s
  }

  /** The text from `i` up to `j`. */
  function Between(s: string, i: int, j: int): string {
    if 0 <= i <= j <= |s| then s[i..j] else ""
  }

  /** `indexFrom`: the first occurrence at or after `start`, as an absolute index. */
  function IndexFrom(s: string, start: nat, p: string): (r: int)
    ensures -1 <= r
    ensures r >= 0 ==> start <= r && r + |p| <= |s|
  {
    if start > |s| then -1
    else var r := Index(s[start..], p); if r < 0 then -1 else start + r
  }

  /** `skipLeadingWhitespaceBytes` / `skipASCIIWhitespace`, on the remaining text. */
  function SkipSpace(s: string): (r: string)
    ensures |r| <= |s|
    ensures r != [] ==> !IsAsciiSpace(r[0])
  {
    if s != [] && IsAsciiSpace(s[0]) then SkipSpace(s[1..]) else s
  }

  /** What skipping leaves is the end of the text. */
  lemma {:induction false} SkipSpaceIs(s: string)
    ensures SkipSpace(s) == s[|s| - |SkipSpace(s)|..]
  {
    if s != [] && IsAsciiSpace(s[0]) {
      SkipSpaceIs(s[1..]);
    }
  }

  predicate AsciiBlank(s: string) {
    forall i :: 0 <= i < |s| ==> IsAsciiSpace(s[i])
  }

  // ----- appending more input -----

  lemma DropAppend(b: string, ext: string, i: nat)
    requires i <= |b|
    ensures (b + ext)[i..] == b[i..] + ext
    ensures (b + ext)[..i] == b[..i]
  {}

  /** Bytes moved from the input to the text consumed leave the whole text alone. */
  lemma MoveAcross(whole: string, b: string, n: nat, ext: string)
    requires n <= |b|
    ensures whole + (b + ext) == whole + b[..n] + (b[n..] + ext)
    ensures b + ext == b[..n] + (b[n..] + ext)
  {}

  lemma DropFront(p: string, s: string, n: nat)
    requires n <= |s|
    ensures |p| + n <= |p + s| && (p + s)[|p| + n..] == s[n..]
    ensures (p + s)[..|p| + n] == p + s[..n]
    ensures (p + s)[..|p|] == p
  {}

  /** A complete match stays a match, whatever input follows. */
  lemma PrefixExtends(b: string, ext: string, p: string)
    ensures p <= b ==> p <= b + ext
    ensures |p| <= |b| && p <= b + ext ==> p <= b
    ensures p <= b + ext ==> p <= b || b <= p
  {
    if p <= b + ext {
      if |p| <= |b| {
        assert p == (b + ext)[..|p|] == b[..|p|];
      } else {
        assert b == (b + ext)[..|b|] == p[..|b|];
      }
    }
  }

  /** The first occurrence in a buffer is the first occurrence in any longer text. */
  lemma {:induction false} IndexExtends(b: string, ext: string, p: string)
    requires Index(b, p) >= 0
    ensures Index(b + ext, p) == Index(b, p)
  {
    PrefixExtends(b, ext, p);
    if !(p <= b) {
      DropAppend(b, ext, 1);
      IndexExtends(b[1..], ext, p);
    }
  }

  lemma {:induction false} IndexIs(s: string, p: string, i: nat)
    requires i <= |s| && p <= s[i..]
    requires forall j :: 0 <= j < i ==> !(p <= s[j..])
    ensures Index(s, p) == i
  {
    assert s[0..] == s;
    if i > 0 {
      forall j | 0 <= j < i - 1 ensures !(p <= s[1..][j..]) {
        assert s[1..][j..] == s[j + 1..];
      }
      assert s[1..][i - 1..] == s[i..];
      IndexIs(s[1..], p, i - 1);
    }
  }

  lemma {:induction false} SkipSpaceExtends(b: string, ext: string)
    ensures SkipSpace(b + ext) == SkipSpace(SkipSpace(b) + ext)
    ensures SkipSpace(b) != [] ==> SkipSpace(b + ext) == SkipSpace(b) + ext
  {
    if b == [] {
    } else if IsAsciiSpace(b[0]) {
      DropAppend(b, ext, 1);
      assert (b + ext)[0] == b[0];
      SkipSpaceExtends(b[1..], ext);
    } else {
      assert (b + ext)[0] == b[0];
    }
  }

  lemma {:induction false} SkipSpaceIdempotent(s: string)
    ensures SkipSpace(SkipSpace(s)) == SkipSpace(s)
  {}

  lemma {:induction false} SkipSpaceBlank(s: string)
    ensures SkipSpace(s) == [] <==> AsciiBlank(s)
    ensures AsciiBlank(s[..|s| - |SkipSpace(s)|])
  {
    if s != [] && IsAsciiSpace(s[0]) {
      SkipSpaceBlank(s[1..]);
      var n := |s| - |SkipSpace(s)|;
      assert forall i :: 0 < i < n ==> s[..n][i] == s[1..][..n - 1][i - 1];
      assert forall i :: 0 < i < |s| ==> s[i] == s[1..][i - 1];
    }
  }

  // ----- strings.TrimSpace -----

  /** How many bytes of white space (Unicode's White_Space, in UTF-8) begin `s`. */
  function SpaceAt(s: string): (n: nat)
    ensures n <= |s|
  {
    if s == [] then 0
    else if IsAsciiSpace(s[0]) || s[0] == '\U{0B}' || s[0] == '\U{0C}' then 1
    else if |s| >= 2 && IsWideSpace2(s[0], s[1]) then 2
    else if |s| >= 3 && IsWideSpace3(s[0], s[1], s[2]) then 3
    else 0
  }

  /** How many bytes of white space end `s`. */
  function SpaceEnding(s: string): (n: nat)
    ensures n <= |s|
  {
    var k := |s|;
    if s == [] then 0
    else if IsAsciiSpace(s[k - 1]) || s[k - 1] == '\U{0B}' || s[k - 1] == '\U{0C}' then 1
    else if k >= 2 && IsWideSpace2(s[k - 2], s[k - 1]) then 2
    else if k >= 3 && IsWideSpace3(s[k - 3], s[k - 2], s[k - 1]) then 3
    else 0
  }

  predicate IsWideSpace2(a: char, b: char) {
    a == '\U{C2}' && (b == '\U{85}' || b == '\U{A0}')
  }

  predicate IsWideSpace3(a: char, b: char, c: char) {
    || (a == '\U{E1}' && b == '\U{9A}' && c == '\U{80}')
    || (a == '\U{E2}' && b == '\U{80}' &&
        ('\U{80}' <= c <= '\U{8A}' || c == '\U{A8}' || c == '\U{A9}' || c == '\U{AF}'))
    || (a == '\U{E2}' && b == '\U{81}' && c == '\U{9F}')
    || (a == '\U{E3}' && b == '\U{80}' && c == '\U{80}')
  }

  function TrimLeft(s: string): (r: string)
    ensures |r| <= |s| && SpaceAt(r) == 0
  {
    if SpaceAt(s) == 0 then s else TrimLeft(s[SpaceAt(s)..])
  }

  lemma {:induction false} TrimLeftIs(s: string)
    ensures TrimLeft(s) == s[|s| - |TrimLeft(s)|..]
  {
    hide SpaceAt;
    if SpaceAt(s) != 0 {
      TrimLeftIs(s[SpaceAt(s)..]);
    }
  }

  function TrimRight(s: string): (r: string)
    ensures r <= s
    ensures SpaceEnding(r) == 0
  {
    if SpaceEnding(s) == 0 then s else TrimRight(s[..|s| - SpaceEnding(s)])
  }

  function TrimSpace(s: string): string {
    TrimRight(TrimLeft(s))
  }

  lemma {:induction false} TrimLeftBlank(s: string)
    requires AsciiBlank(s)
    ensures TrimLeft(s) == "" && TrimSpace(s) == ""
  {
    if s != [] {
      TrimLeftBlank(s[1..]);
    }
  }

  /** Text that neither begins nor ends with white space is its own trimming. */
  predicate Trimmed(s: string) {
    SpaceAt(s) == 0 && SpaceEnding(s) == 0
  }

  lemma TrimmedStays(s: string)
    requires Trimmed(s)
    ensures TrimSpace(s) == s
  {}
}
