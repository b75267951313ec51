/** The GGUF v3 layout (internal/models/gguf_merge.go): what a reader at a position sees, as functions of the
    file. Nothing but the bytes read matters: the same bytes elsewhere read the same. */
module GgufFormat {
  import opened Text

  type Byte = x: int | 0 <= x < 256
  type Bytes = seq<Byte>

  const HEADER_LIMIT := 0x800_0000
  const ALIGNMENT := 16384

  function Ascii(s: string): (b: Bytes)
    ensures |b| == |s|
  {
    seq(|s|, i requires 0 <= i < |s| => s[i] as int % 256)
  }

  /** `ggufAlign`. */
  function Align(n: nat, a: nat): nat
    requires a > 0
  {
    (n + a - 1) / a * a
  }

  lemma AlignIsNext(n: nat, a: nat)
    requires a > 0
    ensures n <= Align(n, a) < n + a
  {
    var q := (n + a - 1) / a;
    assert q * a + (n + a - 1) % a == n + a - 1;
  }

  /** To the merger's alignment: the next multiple, and again itself. */
  lemma AlignedIsMultiple(n: nat)
    ensures Align(n, ALIGNMENT) % ALIGNMENT == 0 && Align(Align(n, ALIGNMENT), ALIGNMENT) == Align(n, ALIGNMENT)
  {}

  // ----- little-endian numbers -----

  function Pow256(k: nat): nat {
    if k == 0 then 1 else 256 * Pow256(k - 1)
  }

  function LE(n: nat, k: nat): (b: Bytes)
    ensures |b| == k
  {
    if k == 0 then [] else [n % 256] + LE(n / 256, k - 1)
  }

  function FromLE(b: Bytes): nat {
    if b == [] then 0 else b[0] + 256 * FromLE(b[1..])
  }

  lemma {:induction false} LERoundTrip(n: nat, k: nat)
    requires n < Pow256(k)
    ensures FromLE(LE(n, k)) == n
  {
    if k > 0 {
      LERoundTrip(n / 256, k - 1);
      assert LE(n, k)[1..] == LE(n / 256, k - 1);
    }
  }

  lemma {:induction false} FromLEBounded(b: Bytes)
    ensures FromLE(b) < Pow256(|b|)
  {
    if b != [] {
      FromLEBounded(b[1..]);
    }
  }

  /** A number that was read is written back as it was. */
  lemma {:induction false} FromLERoundTrip(b: Bytes)
    ensures LE(FromLE(b), |b|) == b
  {
    if b != [] {
      FromLERoundTrip(b[1..]);
      var r := FromLE(b[1..]);
      assert (b[0] + 256 * r) % 256 == b[0] && (b[0] + 256 * r) / 256 == r;
    }
  }

  // ----- reading at a position -----

  /** The reader's guard: neither the header limit nor the file ends before `n` more bytes. */
  predicate Fits(f: Bytes, pos: nat, n: nat) {
    pos + n <= HEADER_LIMIT && pos + n <= |f|
  }

  function Number(f: Bytes, pos: nat, k: nat): Option<nat> {
    if Fits(f, pos, k) then Some(FromLE(f[pos..pos + k])) else None
  }

  /** Where the string at `pos` ends. */
  function StringEnd(f: Bytes, pos: nat): (e: Option<nat>)
    ensures e.Some? ==> pos + 8 <= e.value <= |f| && e.value <= HEADER_LIMIT
  {
    match Number(f, pos, 8)
    case None => None
    case Some(n) => if Fits(f, pos + 8, n) then Some(pos + 8 + n) else None
  }

  /** Bytes of a fixed-size value. */
  function ScalarSize(kind: nat): Option<nat> {
    if kind == 0 || kind == 1 || kind == 7 then Some(1)
    else if kind == 2 || kind == 3 then Some(2)
    else if kind == 4 || kind == 5 || kind == 6 then Some(4)
    else if kind == 10 || kind == 11 || kind == 12 then Some(8)
    else None
  }

  /** Where the metadata value at `pos` ends (`value`). */
  function ValueEnd(f: Bytes, pos: nat, kind: nat, depth: nat): (e: Option<nat>)
    ensures e.Some? ==> pos <= e.value <= |f| && e.value <= HEADER_LIMIT
    decreases if depth <= 4 then 5 - depth else 0, 0, 1
  {
    if depth > 4 then None
    else match ScalarSize(kind)
      case Some(n) => if Fits(f, pos, n) then Some(pos + n) else None
      case None =>
        if kind == 8 then StringEnd(f, pos)
        else if kind != 9 then None
        else match Number(f, pos, 4)
          case None => None
          case Some(of) => match Number(f, pos + 4, 8)
            case None => None
            case Some(n) => if n > HEADER_LIMIT then None else ValuesEnd(f, pos + 12, of, depth + 1, n)
  }

  /** Where `n` values end. */
  function ValuesEnd(f: Bytes, pos: nat, kind: nat, depth: nat, n: nat): (e: Option<nat>)
    requires pos <= |f| && pos <= HEADER_LIMIT
    ensures e.Some? ==> pos <= e.value <= |f| && e.value <= HEADER_LIMIT
    decreases if depth <= 4 then 5 - depth else 0, n, 2
  {
    if n == 0 then Some(pos)
    else match ValueEnd(f, pos, kind, depth)
      case None => None
      case Some(p) => ValuesEnd(f, p, kind, depth, n - 1)
  }

  // ----- locality -----

  /** The `n` bytes at `pos` occur at `q` in another file, within its limits. */
  predicate Same(f: Bytes, pos: nat, n: nat, g: Bytes, q: nat) {
    pos + n <= |f| && Fits(g, q, n) && f[pos..pos + n] == g[q..q + n]
  }

  lemma SamePart(f: Bytes, pos: nat, n: nat, g: Bytes, q: nat, i: nat, k: nat)
    requires Same(f, pos, n, g, q) && i + k <= n
    ensures Same(f, pos + i, k, g, q + i)
  {
    Slice(f, pos, n, i, k);
    Slice(g, q, n, i, k);
  }

  lemma Slice(f: Bytes, pos: nat, n: nat, i: nat, k: nat)
    requires pos + n <= |f| && i + k <= n
    ensures f[pos..pos + n][i..i + k] == f[pos + i..pos + i + k]
  {
    var a, b := f[pos..pos + n][i..i + k], f[pos + i..pos + i + k];
    assert |a| == |b| && forall j :: 0 <= j < k ==> a[j] == f[pos + i + j] == b[j];
  }

  lemma StringLocal(f: Bytes, pos: nat, g: Bytes, q: nat)
    requires StringEnd(f, pos).Some? && Same(f, pos, StringEnd(f, pos).value - pos, g, q)
    ensures StringEnd(g, q) == Some(q + StringEnd(f, pos).value - pos)
  {
    hide FromLE;
    SamePart(f, pos, StringEnd(f, pos).value - pos, g, q, 0, 8);
  }

  lemma {:induction false} ValueLocal(f: Bytes, pos: nat, kind: nat, depth: nat, g: Bytes, q: nat)
    requires ValueEnd(f, pos, kind, depth).Some? && Same(f, pos, ValueEnd(f, pos, kind, depth).value - pos, g, q)
    ensures ValueEnd(g, q, kind, depth) == Some(q + ValueEnd(f, pos, kind, depth).value - pos)
    decreases if depth <= 4 then 5 - depth else 0, 0, 1
  {
    hide FromLE, ValuesEnd, StringEnd;
    var n := ValueEnd(f, pos, kind, depth).value - pos;
    if ScalarSize(kind) == None {
      if kind == 8 {
        StringLocal(f, pos, g, q);
      } else {
        SamePart(f, pos, n, g, q, 0, 4);
        SamePart(f, pos, n, g, q, 4, 8);
        SamePart(f, pos, n, g, q, 12, n - 12);
        ValuesLocal(f, pos + 12, Number(f, pos, 4).value, depth + 1, Number(f, pos + 4, 8).value, g, q + 12);
      }
    }
  }

  lemma {:induction false} ValuesLocal(f: Bytes, pos: nat, kind: nat, depth: nat, n: nat, g: Bytes, q: nat)
    requires pos <= |f| && pos <= HEADER_LIMIT && q <= |g| && q <= HEADER_LIMIT
    requires ValuesEnd(f, pos, kind, depth, n).Some? &&
             Same(f, pos, ValuesEnd(f, pos, kind, depth, n).value - pos, g, q)
    ensures ValuesEnd(g, q, kind, depth, n) == Some(q + ValuesEnd(f, pos, kind, depth, n).value - pos)
    decreases if depth <= 4 then 5 - depth else 0, n, 2
  {
    hide FromLE, ValueEnd;
    if n > 0 {
      var all := ValuesEnd(f, pos, kind, depth, n).value - pos;
      var one := ValueEnd(f, pos, kind, depth).value - pos;
      SamePart(f, pos, all, g, q, 0, one);
      SamePart(f, pos, all, g, q, one, all - one);
      ValueLocal(f, pos, kind, depth, g, q);
      ValuesLocal(f, pos + one, kind, depth, n - 1, g, q + one);
    }
  }

  // ----- metadata -----

  datatype KV = KV(key: Bytes, kind: nat, raw: Bytes, number: nat, text: Bytes)

  function KVEnd(f: Bytes, pos: nat): (e: Option<nat>)
    ensures e.Some? ==> pos < e.value <= |f| && e.value <= HEADER_LIMIT
  {
    match StringEnd(f, pos)
    case None => None
    case Some(p) => match Number(f, p, 4)
      case None => None
      case Some(kind) => ValueEnd(f, p + 4, kind, 0)
  }

  /** The numeric reading of a short number's bytes, and the text of a string. */
  function NumberOf(kind: nat, data: Bytes): nat {
    if kind == 2 && |data| >= 2 then FromLE(data[..2])
        else if (kind == 4 || kind == 5) && |data| >= 4 then FromLE(data[..4]) else 0
  }

  function TextOf(kind: nat, data: Bytes): Bytes {
    if kind == 8 && |data| >= 8 then data[8..] else []
  }

  /** The key-value pair at `pos`. */
  function KVAt(f: Bytes, pos: nat): KV
    requires KVEnd(f, pos).Some?
  {
    var p, e := StringEnd(f, pos).value, KVEnd(f, pos).value;
    var kind := Number(f, p, 4).value;
    KV(f[pos + 8..p], kind, f[pos..e], NumberOf(kind, f[p + 4..e]), TextOf(kind, f[p + 4..e]))
  }

  lemma KVLocal(f: Bytes, pos: nat, g: Bytes, q: nat)
    requires KVEnd(f, pos).Some? && Same(f, pos, KVEnd(f, pos).value - pos, g, q)
    ensures KVEnd(g, q) == Some(q + KVEnd(f, pos).value - pos) && KVAt(g, q) == KVAt(f, pos)
  {
    hide FromLE, ValueEnd, StringEnd, NumberOf, TextOf;
    var n := KVEnd(f, pos).value - pos;
    var k := StringEnd(f, pos).value - pos;
    SamePart(f, pos, n, g, q, 0, k);
    StringLocal(f, pos, g, q);
    SamePart(f, pos, n, g, q, k, 4);
    SamePart(f, pos, n, g, q, k + 4, n - k - 4);
    SamePart(f, pos, n, g, q, 8, k - 8);
    ValueLocal(f, pos + k + 4, Number(f, pos + k, 4).value, 0, g, q + k + 4);
  }

  function GENERAL_ALIGNMENT(): Bytes { Ascii("general.alignment") }

  predicate HasKey(kvs: seq<KV>, key: Bytes) {
    exists i :: 0 <= i < |kvs| && kvs[i].key == key
  }

  /** One pair may follow: its key is new, and the alignment is a 32-bit number. */
  predicate MayFollow(kvs: seq<KV>, kv: KV) {
    !HasKey(kvs, kv.key) && (kv.key == GENERAL_ALIGNMENT() ==> kv.kind == 4)
  }

  datatype KVs = KVs(kvs: seq<KV>, end: nat)

  /** `n` more pairs. */
  function ReadKVs(f: Bytes, pos: nat, n: nat, seen: seq<KV>): Option<KVs>
    decreases n
  {
    if n == 0 then Some(KVs(seen, pos))
    else match KVEnd(f, pos)
      case None => None
      case Some(e) => if MayFollow(seen, KVAt(f, pos)) then ReadKVs(f, e, n - 1, seen + [KVAt(f, pos)]) else None
  }

  function AlignmentOf(kvs: seq<KV>): nat {
    if kvs == [] then 32
    else
      var kv := kvs[|kvs| - 1];
      if kv.key == GENERAL_ALIGNMENT() then kv.number else AlignmentOf(kvs[..|kvs| - 1])
  }

  predicate IsAlignment(a: nat): (b: bool)
    ensures b ==> 0 < a <= ALIGNMENT
  {
    a in [1, 2, 4, 8, 16, 32, 64, 128, 256, 512, 1024, 2048, 4096, 8192, 16384]
  }

  // ----- tensors -----

  datatype Tensor = Tensor(name: Bytes, shape: seq<nat>, kind: nat, offset: nat, size: nat)

  const MAX_COUNT := 0x1000_0000_0000_0000

  /** The dimensions from `pos` on, with `count` elements so far. */
  function ReadShape(f: Bytes, pos: nat, rank: nat, count: nat, shape: seq<nat>): Option<(seq<nat>, nat)>
    requires count > 0
    decreases rank
  {
    if rank == 0 then Some((shape, count))
    else match Number(f, pos, 8)
      case None => None
      case Some(n) => if n == 0 || n > MAX_COUNT / count then None
          else ReadShape(f, pos + 8, rank - 1, count * n, shape + [n])
  }

  /** Elements and bytes of a block, by element kind. */
  function Layout(kind: nat): Option<(nat, nat)> {
    if kind == 0 then Some((1, 4))
    else if kind == 1 then Some((1, 2))
    else if kind == 8 then Some((32, 34))
    else if kind == 24 then Some((1, 1))
    else if kind == 39 then Some((32, 17))
    else None
  }

  /** The bytes of a tensor, if its rows are whole blocks. */
  function SizeOf(kind: nat, shape: seq<nat>, count: nat): Option<nat> {
    match Layout(kind)
    case None => None
    case Some(l) => if shape == [] || shape[0] % l.0 != 0 then None else Some(count / l.0 * l.1)
  }

  datatype Info = Info(tensor: Tensor, end: nat)

  /** The tensor description at `pos`. */
  function TensorAt(f: Bytes, pos: nat): Option<Info> {
    match StringEnd(f, pos)
    case None => None
    case Some(p) => match Number(f, p, 4)
      case None => None
      case Some(rank) =>
        if rank < 1 || rank > 4 then None
        else match ReadShape(f, p + 4, rank, 1, [])
          case None => None
          case Some(s) =>
            var k := p + 4 + 8 * rank;
            match Number(f, k, 4)
            case None => None
            case Some(kind) => match Number(f, k + 4, 8)
              case None => None
              case Some(offset) => match SizeOf(kind, s.0, s.1)
                case None => None
                case Some(size) => Some(Info(Tensor(f[pos + 8..p], s.0, kind, offset, size), k + 12))
  }

  datatype Tensors = Tensors(tensors: seq<Tensor>, end: nat, offset: nat)

  /** `n` more tensors, laid out one behind the other within a file of the given size. */
  function ReadTensors(f: Bytes, pos: nat, n: nat, align: nat, offset: nat, seen: seq<Tensor>): Option<Tensors>
    requires align > 0
    decreases n
  {
    if n == 0 then Some(Tensors(seen, pos, offset))
    else match TensorAt(f, pos)
      case None => None
      case Some(i) =>
        var t := i.tensor;
        if t.offset != offset || offset + t.size > |f| then None
        else ReadTensors(f, i.end, n - 1, align, offset + Align(t.size, align), seen + [t])
  }

  datatype Header = Header(kv: seq<KV>, tensors: seq<Tensor>, data: nat)

  const MAX_ITEMS := 100000

  /** `readGGUF`: the header of a file, if it is one the merger accepts. */
  function ReadHeader(f: Bytes): Option<Header> {
    if !Fits(f, 0, 24) || f[..4] != Ascii("GGUF") || FromLE(f[4..8]) != 3 then None
    else
      var nt, nk := FromLE(f[8..16]), FromLE(f[16..24]);
      if nt > MAX_ITEMS || nk > MAX_ITEMS then None
      else match ReadKVs(f, 24, nk, [])
        case None => None
        case Some(m) =>
          var align := AlignmentOf(m.kvs);
          if !IsAlignment(align) then None
          else match ReadTensors(f, m.end, nt, align, 0, [])
            case None => None
            case Some(ts) =>
              var data := Align(ts.end, align);
              if data + ts.offset == |f| then Some(Header(m.kvs, ts.tensors, data)) else None
  }
}
