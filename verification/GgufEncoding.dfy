/** What the reader accepts (internal/models/gguf_merge.go:58-211), said without it: a shard as a value, its bytes as
    the GGUF format lays them out, and that the reader accepts exactly those and reads back what was written. */
module GgufEncoding {
  import opened Text
  import opened GgufFormat
  import opened GgufPlan
  import opened GgufReadBack

  // ----- metadata values -----

  datatype Type = Uint8 | Int8 | Uint16 | Int16 | Uint32 | Int32 | Float32 | Bool | Uint64 | Int64 | Float64

  /** A number or boolean as its little-endian bytes, a string, or an array of values of one type. */
  datatype Value = Scalar(t: Type, bits: Bytes) | Str(text: Bytes) | List(of: nat, items: seq<Value>)

  function Width(t: Type): nat {
    match t
    case Uint8 | Int8 | Bool => 1
    case Uint16 | Int16 => 2
    case Uint32 | Int32 | Float32 => 4
    case Uint64 | Int64 | Float64 => 8
  }

  /** The format's number of a type. */
  function Code(t: Type): nat {
    match t
    case Uint8 => 0
    case Int8 => 1
    case Uint16 => 2
    case Int16 => 3
    case Uint32 => 4
    case Int32 => 5
    case Float32 => 6
    case Bool => 7
    case Uint64 => 10
    case Int64 => 11
    case Float64 => 12
  }

  function CodeOf(v: Value): nat {
    match v
    case Scalar(t, _) => Code(t)
    case Str(_) => 8
    case List(_, _) => 9
  }

  /** Arrays nest four deep at most, and their items are of the stated type. */
  predicate Storable(v: Value, depth: nat) {
    depth <= 4 &&
    match v
    case Scalar(t, bits) => |bits| == Width(t)
    case Str(_) => true
    case List(of, items) => of < Pow256(4) && |items| <= HEADER_LIMIT && AllStorable(items, of, depth + 1)
  }

  predicate AllStorable(items: seq<Value>, of: nat, depth: nat) {
    forall i :: 0 <= i < |items| ==> CodeOf(items[i]) == of && Storable(items[i], depth)
  }

  function ValueBytes(v: Value): Bytes {
    match v
    case Scalar(_, bits) => bits
    case Str(text) => StringBytes(text)
    case List(of, items) => LE(of, 4) + LE(|items|, 8) + ItemsBytes(items)
  }

  function ItemsBytes(items: seq<Value>): Bytes {
    if items == [] then [] else ValueBytes(items[0]) + ItemsBytes(items[1..])
  }

  lemma CodesAreSized(t: Type)
    ensures ScalarSize(Code(t)) == Some(Width(t)) && Code(t) < Pow256(4)
  {
    Widths();
  }

  /** A written value is passed over to its last byte. */
  lemma {:induction false} ValueReadsBack(g: Bytes, q: nat, v: Value, depth: nat)
    requires Storable(v, depth) && Written(g, q, ValueBytes(v))
    ensures ValueEnd(g, q, CodeOf(v), depth) == Some(q + |ValueBytes(v)|)
    decreases v
  {
    hide LE, FromLE, Pow256, StringEnd, ValuesEnd, ItemsBytes, StringBytes, AllStorable;
    Widths();
    match v
    case Scalar(t, bits) => CodesAreSized(t);
    case Str(text) =>
      StringReadBack(g, q, text);
      StringLength(text);
    case List(of, items) =>
      var a, b, c := LE(of, 4), LE(|items|, 8), ItemsBytes(items);
      WrittenSplit(g, q, a + b, c);
      WrittenSplit(g, q, a, b);
      NumberReadBack(g, q, of, 4);
      NumberReadBack(g, q + 4, |items|, 8);
      ItemsReadBack(g, q + 12, items, of, depth + 1);
  }

  lemma {:induction false} ItemsReadBack(g: Bytes, q: nat, items: seq<Value>, of: nat, depth: nat)
    requires AllStorable(items, of, depth) && Written(g, q, ItemsBytes(items))
    ensures ValuesEnd(g, q, of, depth, |items|) == Some(q + |ItemsBytes(items)|)
    decreases items
  {
    hide ValueEnd, ValueBytes, Storable;
    if items != [] {
      assert forall i :: 0 <= i < |items[1..]| ==> items[1..][i] == items[i + 1];
      WrittenSplit(g, q, ValueBytes(items[0]), ItemsBytes(items[1..]));
      ValueReadsBack(g, q, items[0], depth);
      ItemsReadBack(g, q + |ValueBytes(items[0])|, items[1..], of, depth);
    }
  }

  // ----- metadata -----

  datatype Pair = Pair(key: Bytes, value: Value)

  function PairBytes(p: Pair): Bytes {
    StringBytes(p.key) + LE(CodeOf(p.value), 4) + ValueBytes(p.value)
  }

  /** The pair as the merger uses it: the number of a 16-bit or 32-bit integer, and the text of a string. */
  function AsRead(p: Pair): KV {
    KV(p.key, CodeOf(p.value), PairBytes(p),
       if p.value.Scalar? && (p.value.t == Uint16 || p.value.t == Uint32 || p.value.t == Int32) then
           FromLE(p.value.bits) else 0,
       if p.value.Str? then p.value.text else [])
  }

  function AllAsRead(ps: seq<Pair>): (kvs: seq<KV>)
    ensures |kvs| == |ps|
  {
    seq(|ps|, i requires 0 <= i < |ps| => AsRead(ps[i]))
  }

  lemma PairReadsBack(g: Bytes, q: nat, p: Pair)
    requires Storable(p.value, 0) && Written(g, q, PairBytes(p))
    ensures KVEnd(g, q) == Some(q + |PairBytes(p)|) && KVAt(g, q) == AsRead(p)
  {
    hide LE, FromLE, Pow256, StringEnd, ValueEnd, StringBytes, ValueBytes, Number, NumberOf, TextOf, Storable;
    Widths();
    var key, code, value := StringBytes(p.key), LE(CodeOf(p.value), 4), ValueBytes(p.value);
    WrittenSplit(g, q, key + code, value);
    WrittenSplit(g, q, key, code);
    StringReadBack(g, q, p.key);
    StringLength(p.key);
    assert CodeOf(p.value) < Pow256(4);
    NumberReadBack(g, q + |key|, CodeOf(p.value), 4);
    ValueReadsBack(g, q + |key| + 4, p.value, 0);
    ValueIsRead(p.value);
    assert g[q + |key| + 4..q + |PairBytes(p)|] == value;
  }

  lemma ValueIsRead(v: Value)
    requires Storable(v, 0)
    ensures NumberOf(CodeOf(v), ValueBytes(v)) ==
            if v.Scalar? && (v.t == Uint16 || v.t == Uint32 || v.t == Int32) then FromLE(v.bits) else 0
    ensures TextOf(CodeOf(v), ValueBytes(v)) == if v.Str? then v.text else []
  {
    hide FromLE, LE, ItemsBytes, AllStorable;
    if v.Scalar? {
      assert v.bits[..|v.bits|] == v.bits;
    }
  }

  /** The alignment a shard states, or the format's default. */
  function Alignment(ps: seq<Pair>): nat {
    if ps == [] then 32
    else
      var p := ps[|ps| - 1];
      if p.key == GENERAL_ALIGNMENT() && p.value.Scalar? then FromLE(p.value.bits) else Alignment(ps[..|ps| - 1])
  }

  predicate AllPairsStorable(ps: seq<Pair>) {
    && (forall i :: 0 <= i < |ps| ==> Storable(ps[i].value, 0))
    && (forall i :: 0 <= i < |ps| && ps[i].key == GENERAL_ALIGNMENT() ==>
                      ps[i].value.Scalar? && ps[i].value.t == Uint32)
    && (forall i, j :: 0 <= i < j < |ps| ==> ps[i].key != ps[j].key)
  }

  lemma {:induction false} AlignmentIsRead(ps: seq<Pair>)
    requires AllPairsStorable(ps)
    ensures AlignmentOf(AllAsRead(ps)) == Alignment(ps)
  {
    hide GENERAL_ALIGNMENT, FromLE, PairBytes, Storable;
    if ps != [] {
      var init := ps[..|ps| - 1];
      assert forall i :: 0 <= i < |init| ==> init[i] == ps[i];
      assert AllAsRead(ps)[..|init|] == AllAsRead(init);
      AlignmentIsRead(init);
    }
  }

  // ----- tensors -----

  datatype Element = F32 | F16 | Q80 | I8 | Mxfp4

  datatype Described = Described(name: Bytes, shape: seq<nat>, element: Element)

  function ElementCode(e: Element): nat {
    match e
    case F32 => 0
    case F16 => 1
    case Q80 => 8
    case I8 => 24
    case Mxfp4 => 39
  }

  /** Elements that are stored together. */
  function Lane(e: Element): nat {
    if e == Q80 || e == Mxfp4 then 32 else 1
  }

  function Elements(shape: seq<nat>): nat {
    if shape == [] then 1 else Elements(shape[..|shape| - 1]) * shape[|shape| - 1]
  }

  /** The room `count` elements take: a lane of eight-bit quants has a two-byte scale, one of four-bit floats a
      one-byte scale. */
  function Room(e: Element, count: nat): nat {
    match e
    case F32 => 4 * count
    case F16 => 2 * count
    case I8 => count
    case Q80 => count / 32 * (32 + 2)
    case Mxfp4 => count / 32 * (16 + 1)
  }

  /** One to four dimensions, none empty, of whole lanes and at most 2^60 elements. */
  predicate Shaped(t: Described) {
    && 1 <= |t.shape| <= 4 && (forall i :: 0 <= i < |t.shape| ==> 0 < t.shape[i])
    && Elements(t.shape) <= 0x1000_0000_0000_0000 && t.shape[0] % Lane(t.element) == 0
  }

  function TensorOf(t: Described, offset: nat): Tensor {
    Tensor(t.name, t.shape, ElementCode(t.element), offset, Room(t.element, Elements(t.shape)))
  }

  /** The room tensors take in the data, each padded to the alignment. */
  function Extent(ts: seq<Described>, a: nat): nat
    requires a > 0
  {
    if ts == [] then 0
    else
      var t := ts[|ts| - 1];
      Extent(ts[..|ts| - 1], a) + Align(Room(t.element, Elements(t.shape)), a)
  }

  /** The tensors one behind the other. */
  function LaidOut(ts: seq<Described>, a: nat): (r: seq<Tensor>)
    requires a > 0
    ensures |r| == |ts|
  {
    if ts == [] then [] else LaidOut(ts[..|ts| - 1], a) + [TensorOf(ts[|ts| - 1], Extent(ts[..|ts| - 1], a))]
  }

  function DescriptionsBytes(rs: seq<Tensor>): Bytes {
    if rs == [] then [] else DescriptionsBytes(rs[..|rs| - 1]) + InfoBytes(rs[|rs| - 1], rs[|rs| - 1].offset)
  }

  /** A product within the bound keeps every partial product within it. */
  lemma {:induction false} CountIsElements(shape: seq<nat>)
    requires forall i :: 0 <= i < |shape| ==> 0 < shape[i]
    ensures Elements(shape) > 0
    ensures Elements(shape) <= MAX_COUNT ==> CountOf(shape) == Some(Elements(shape)) && Wide(shape)
  {
    hide Pow256;
    Widths();
    if shape != [] {
      var init, n := shape[..|shape| - 1], shape[|shape| - 1];
      CountIsElements(init);
      Product(Elements(init), n, MAX_COUNT);
      assert shape == init + [n];
    }
  }

  lemma Product(c: nat, n: nat, m: nat)
    requires c > 0 && n > 0
    ensures c * n > 0 && c <= c * n && n <= c * n && (c * n <= m <==> n <= m / c)
  {
    Grows(c, n);
    Grows(n, c);
    if n <= m / c {
      Monotone(c, n, m / c);
    } else {
      Monotone(c, m / c + 1, n);
    }
  }

  lemma Grows(c: nat, n: nat)
    requires c > 0 && n > 0
    ensures c <= c * n
  {
    assert c * n == c + c * (n - 1);
  }

  lemma Monotone(c: nat, a: nat, b: nat)
    requires a <= b
    ensures c * a <= c * b
  {
    assert c * b == c * a + c * (b - a);
  }

  lemma ShapedIsWellRead(t: Described, offset: nat)
    requires Shaped(t) && |t.name| < Pow256(8)
    ensures WellRead(TensorOf(t, offset))
  {
    hide Pow256, Elements, CountOf, Wide;
    Widths();
    CountIsElements(t.shape);
    ElementIsLaidOut(t.element, t.shape, Elements(t.shape));
  }

  lemma ElementIsLaidOut(e: Element, shape: seq<nat>, count: nat)
    requires shape != [] && shape[0] % Lane(e) == 0
    ensures SizeOf(ElementCode(e), shape, count) == Some(Room(e, count)) && ElementCode(e) < 40
  {}

  lemma {:induction false} LaidOutAt(ts: seq<Described>, a: nat, i: nat)
    requires a > 0 && i < |ts|
    ensures LaidOut(ts, a)[i] == TensorOf(ts[i], Extent(ts[..i], a))
    ensures LaidOut(ts[..i + 1], a) == LaidOut(ts[..i], a) + [LaidOut(ts, a)[i]] == LaidOut(ts, a)[..i + 1]
  {
    hide Extent, Room, Elements;
    var n := |ts| - 1;
    assert ts[..i + 1][..i] == ts[..i];
    if i == n {
      assert ts[..i + 1] == ts;
    } else {
      assert ts[..n][..i] == ts[..i] && ts[..n][..i + 1] == ts[..i + 1];
      LaidOutAt(ts[..n], a, i);
    }
  }

  lemma {:induction false} ExtentGrows(ts: seq<Described>, a: nat, i: nat)
    requires a > 0 && i < |ts|
    ensures var size := Room(ts[i].element, Elements(ts[i].shape));
            Extent(ts[..i], a) + size <= Extent(ts[..i + 1], a) == Extent(ts[..i], a) + Align(size, a) <= Extent(ts, a)
  {
    hide Align, Room, Elements;
    AlignIsNext(Room(ts[i].element, Elements(ts[i].shape)), a);
    assert ts[..i + 1][..i] == ts[..i];
    if i + 1 == |ts| {
      assert ts[..i + 1] == ts;
    } else {
      var init := ts[..|ts| - 1];
      assert init[..i + 1] == ts[..i + 1] && init[..i] == ts[..i];
      ExtentGrows(init, a, i);
    }
  }

  lemma {:induction false} DescriptionsPrefix(rs: seq<Tensor>, i: nat)
    requires i < |rs|
    ensures DescriptionsBytes(rs[..i + 1]) == DescriptionsBytes(rs[..i]) + InfoBytes(rs[i], rs[i].offset)
    ensures DescriptionsBytes(rs[..i + 1]) <= DescriptionsBytes(rs)
  {
    hide InfoBytes;
    assert rs[..i + 1][..i] == rs[..i];
    if i + 1 == |rs| {
      assert rs[..i + 1] == rs;
    } else {
      var init := rs[..|rs| - 1];
      assert init[..i + 1] == rs[..i + 1] && init[..i] == rs[..i];
      DescriptionsPrefix(init, i);
    }
  }

  // ----- a whole shard -----

  datatype Parts = Parts(metadata: seq<Pair>, tensors: seq<Described>)

  function Metadata(s: Parts): Bytes {
    Concat(Raws(AllAsRead(s.metadata)))
  }

  /** The header of a shard, up to the padding in front of the data. */
  function HeaderBytes(s: Parts): Bytes
    requires Alignment(s.metadata) > 0
  {
    Ascii("GGUF") + LE(3, 4) + LE(|s.tensors|, 8) + LE(|s.metadata|, 8) + Metadata(s) +
    DescriptionsBytes(LaidOut(s.tensors, Alignment(s.metadata)))
  }

  predicate PowerOfTwo(a: nat) {
    a == 1 || (a > 1 && a % 2 == 0 && PowerOfTwo(a / 2))
  }

  /** Values and tensors within the format, metadata keys all different, and the alignment a 32-bit power of two of at
      most 16 KiB. */
  predicate Sound(s: Parts) {
    && |s.metadata| <= MAX_ITEMS && |s.tensors| <= MAX_ITEMS && AllPairsStorable(s.metadata)
    && 1 <= Alignment(s.metadata) <= 16 * 1024 && PowerOfTwo(Alignment(s.metadata))
    && (forall i :: 0 <= i < |s.tensors| ==> Shaped(s.tensors[i]))
  }

  lemma {:induction false} PowersAlign(a: nat)
    ensures PowerOfTwo(a) && a <= ALIGNMENT <==> IsAlignment(a)
  {
    if a > 1 && a % 2 == 0 {
      PowersAlign(a / 2);
    }
  }

  /** The file holds the shard: its header within the reader's limit, padding, and as much data as the tensors take, at
      offsets that fit their fields. */
  predicate Holds(f: Bytes, s: Parts) {
    Sound(s) &&
    var a := Alignment(s.metadata);
    var h := HeaderBytes(s);
    && |h| <= HEADER_LIMIT && h <= f && |f| == Align(|h|, a) + Extent(s.tensors, a)
    && (forall i :: 0 <= i < |s.tensors| ==> Extent(s.tensors[..i], a) < Pow256(8))
  }

  function HeaderOf(s: Parts): Header
    requires Alignment(s.metadata) > 0
  {
    var a := Alignment(s.metadata);
    Header(AllAsRead(s.metadata), LaidOut(s.tensors, a), Align(|HeaderBytes(s)|, a))
  }

  // ----- what was written is read -----

  /** Every description of a written shard is read, and finds its tensor in its place. */
  lemma {:induction false} DescriptionsReadBack(g: Bytes, q: nat, ts: seq<Described>, a: nat, i: nat)
    requires a > 0 && i <= |ts| && (forall k :: 0 <= k < |ts| ==> Shaped(ts[k])) && Extent(ts, a) <= |g|
    requires forall k :: 0 <= k < |ts| ==> Extent(ts[..k], a) < Pow256(8)
    requires Written(g, q, DescriptionsBytes(LaidOut(ts, a)))
    ensures ReadTensors(g, q + |DescriptionsBytes(LaidOut(ts[..i], a))|, |ts| - i, a, Extent(ts[..i], a),
                        LaidOut(ts[..i], a))
         == Some(Tensors(LaidOut(ts, a), q + |DescriptionsBytes(LaidOut(ts, a))|, Extent(ts, a)))
    decreases |ts| - i
  {
    hide Pow256, Shaped, TensorAt, InfoBytes, DescriptionsBytes, Extent, LaidOut, Align, WellRead, Room, Elements;
    if i == |ts| {
      assert ts[..i] == ts;
    } else {
      var all := LaidOut(ts, a);
      var t := all[i];
      LaidOutAt(ts, a, i);
      LaidOutBefore(ts, a, i);
      DescriptionsPrefix(all, i);
      var p, info := |DescriptionsBytes(all[..i])|, InfoBytes(t, t.offset);
      var upto := DescriptionsBytes(all[..i + 1]);
      assert DescriptionsBytes(all)[..|upto|] == upto;
      assert DescriptionsBytes(all)[p..p + |info|] == info;
      WrittenPart(g, q, DescriptionsBytes(all), p, |info|);
      NameFits(g, q + p, t);
      ShapedIsWellRead(ts[i], t.offset);
      InfoReadBack(g, q + p, t, t.offset);
      ExtentGrows(ts, a, i);
      DescriptionsReadBack(g, q, ts, a, i + 1);
    }
  }

  lemma LaidOutBefore(ts: seq<Described>, a: nat, i: nat)
    requires a > 0 && i < |ts|
    ensures LaidOut(ts[..i], a) == LaidOut(ts, a)[..i]
  {
    hide Extent;
    LaidOutAt(ts, a, i);
    assert LaidOut(ts, a)[..i + 1][..i] == LaidOut(ts, a)[..i];
  }

  lemma NameFits(g: Bytes, q: nat, t: Tensor)
    requires Written(g, q, InfoBytes(t, t.offset))
    ensures |t.name| < Pow256(8)
  {
    hide LE, ShapeBytes, Pow256;
    Widths();
  }

  lemma AllReadBack(g: Bytes, q: nat, ps: seq<Pair>)
    requires AllPairsStorable(ps) && Written(g, q, Concat(Raws(AllAsRead(ps))))
    ensures ReadKVs(g, q, |ps|, []) == Some(KVs(AllAsRead(ps), q + |Concat(Raws(AllAsRead(ps)))|))
  {
    hide AllPairsStorable, AllAsRead, Concat, Raws, ReadKVs, AllGenuine, DistinctKeys, GENERAL_ALIGNMENT, Written;
    PairsAreGenuine(g, q, ps);
    FromTheFront(g, q, AllAsRead(ps));
  }

  lemma PairsAreGenuine(g: Bytes, q: nat, ps: seq<Pair>)
    requires AllPairsStorable(ps) && Written(g, q, Concat(Raws(AllAsRead(ps))))
    ensures AllGenuine(AllAsRead(ps)) && DistinctKeys(AllAsRead(ps))
    ensures forall j :: 0 <= j < |ps| && AllAsRead(ps)[j].key == GENERAL_ALIGNMENT() ==> AllAsRead(ps)[j].kind == 4
  {
    hide Storable, PairBytes, Concat, Genuine, GENERAL_ALIGNMENT, FromLE, Written;
    forall i | 0 <= i < |ps| ensures Genuine(AllAsRead(ps)[i]) {
      PairIsGenuine(g, q, ps, i);
    }
  }

  lemma FromTheFront(g: Bytes, q: nat, ks: seq<KV>)
    requires AllGenuine(ks) && DistinctKeys(ks) && Written(g, q, Concat(Raws(ks)))
    requires forall j :: 0 <= j < |ks| && ks[j].key == GENERAL_ALIGNMENT() ==> ks[j].kind == 4
    ensures ReadKVs(g, q, |ks|, []) == Some(KVs(ks, q + |Concat(Raws(ks))|))
  {
    hide Concat, ReadKVs, Genuine, AllGenuine, DistinctKeys, GENERAL_ALIGNMENT, Written;
    NoParts();
    assert ks[..0] == [] && Raws(ks[..0]) == [];
    KVsReadBack(g, q, ks, 0);
  }

  lemma PairIsGenuine(g: Bytes, q: nat, ps: seq<Pair>, i: nat)
    requires i < |ps| && Storable(ps[i].value, 0) && Written(g, q, Concat(Raws(AllAsRead(ps))))
    ensures Genuine(AsRead(ps[i]))
  {
    hide Storable, PairBytes, Concat, KVEnd, KVAt;
    ConcatPrefix(Raws(AllAsRead(ps)), i);
    var f := PairBytes(ps[i]);
    assert f[0..0 + |f|] == f;
    PairReadsBack(f, 0, ps[i]);
  }

  lemma NoParts()
    ensures Concat([]) == []
  {}

  /** A file that holds a shard is accepted, and its header is the shard's. */
  lemma ShardReads(f: Bytes, s: Parts)
    requires Holds(f, s)
    ensures ReadHeader(f) == Some(HeaderOf(s))
  {
    hide LE, FromLE, Pow256, Ascii, AllPairsStorable, DescriptionsBytes, Extent, LaidOut, Align, Alignment,
         PowerOfTwo, ReadKVs, ReadTensors, AlignmentOf, IsAlignment, Shaped, Metadata;
    var a := Alignment(s.metadata);
    PowersAlign(a);
    var metadata, rest := Metadata(s), DescriptionsBytes(LaidOut(s.tensors, a));
    var h := HeaderBytes(s);
    assert h == Ascii("GGUF") + LE(3, 4) + LE(|s.tensors|, 8) + LE(|s.metadata|, 8) + (metadata + rest);
    assert f[0..0 + |h|] == h;
    FrontReadBack(f, |s.tensors|, |s.metadata|, metadata + rest);
    WrittenSplit(f, 24, metadata, rest);
    MetadataIs(s);
    AllReadBack(f, 24, s.metadata);
    AlignmentIsRead(s.metadata);
    NoTensors(a);
    assert s.tensors[..0] == [];
    DescriptionsReadBack(f, 24 + |metadata|, s.tensors, a, 0);
    assert |h| == 24 + |metadata| + |rest|;
  }

  lemma MetadataIs(s: Parts)
    ensures Metadata(s) == Concat(Raws(AllAsRead(s.metadata)))
  {}

  lemma NoTensors(a: nat)
    requires a > 0
    ensures DescriptionsBytes([]) == [] && LaidOut([], a) == [] && Extent([], a) == 0
  {}

  // ----- what is read was written -----

  function TypeOf(code: nat): Option<Type> {
    match code
    case 0 => Some(Uint8)
    case 1 => Some(Int8)
    case 2 => Some(Uint16)
    case 3 => Some(Int16)
    case 4 => Some(Uint32)
    case 5 => Some(Int32)
    case 6 => Some(Float32)
    case 7 => Some(Bool)
    case 10 => Some(Uint64)
    case 11 => Some(Int64)
    case 12 => Some(Float64)
    case _ => None
  }

  /** A value that was passed over is one of the format. */
  lemma {:induction false} ValueIsEncoded(f: Bytes, pos: nat, kind: nat, depth: nat) returns (v: Value)
    requires ValueEnd(f, pos, kind, depth).Some?
    ensures CodeOf(v) == kind && Storable(v, depth) && ValueBytes(v) == f[pos..ValueEnd(f, pos, kind, depth).value]
    decreases if depth <= 4 then 5 - depth else 0, 0, 1
  {
    hide LE, FromLE, Pow256, StringEnd, ValuesEnd, ItemsBytes, AllStorable;
    var e := ValueEnd(f, pos, kind, depth).value;
    if ScalarSize(kind).Some? {
      v := Scalar(TypeOf(kind).value, f[pos..e]);
    } else if kind == 8 {
      v := Str(f[pos + 8..e]);
      StringIsEncoded(f, pos);
    } else {
      var of, n := Number(f, pos, 4).value, Number(f, pos + 4, 8).value;
      var items := ItemsAreEncoded(f, pos + 12, of, depth + 1, n);
      v := List(of, items);
      NumberIsEncoded(f, pos, 4);
      NumberIsEncoded(f, pos + 4, 8);
      assert f[pos..e] == f[pos..pos + 4] + f[pos + 4..pos + 12] + f[pos + 12..e];
    }
  }

  lemma {:induction false} ItemsAreEncoded(f: Bytes, pos: nat, of: nat, depth: nat, n: nat) returns (items: seq<Value>)
    requires pos <= |f| && pos <= HEADER_LIMIT && ValuesEnd(f, pos, of, depth, n).Some?
    ensures |items| == n && AllStorable(items, of, depth)
    ensures ItemsBytes(items) == f[pos..ValuesEnd(f, pos, of, depth, n).value]
    decreases if depth <= 4 then 5 - depth else 0, n, 2
  {
    hide ValueEnd, ValueBytes, Storable;
    items := [];
    if n > 0 {
      var v := ValueIsEncoded(f, pos, of, depth);
      var p := ValueEnd(f, pos, of, depth).value;
      var rest := ItemsAreEncoded(f, p, of, depth, n - 1);
      items := [v] + rest;
      var e := ValuesEnd(f, pos, of, depth, n).value;
      assert f[pos..e] == f[pos..p] + f[p..e];
    }
  }

  lemma NumberIsEncoded(f: Bytes, pos: nat, k: nat)
    requires Number(f, pos, k).Some?
    ensures pos + k <= |f| && pos + k <= HEADER_LIMIT
    ensures f[pos..pos + k] == LE(Number(f, pos, k).value, k) && Number(f, pos, k).value < Pow256(k)
  {
    hide LE, FromLE, Pow256;
    FromLERoundTrip(f[pos..pos + k]);
    FromLEBounded(f[pos..pos + k]);
  }

  lemma StringIsEncoded(f: Bytes, pos: nat)
    requires StringEnd(f, pos).Some?
    ensures StringBytes(f[pos + 8..StringEnd(f, pos).value]) == f[pos..StringEnd(f, pos).value]
  {
    hide LE, FromLE, Pow256;
    NumberIsEncoded(f, pos, 8);
    var e := StringEnd(f, pos).value;
    assert f[pos..e] == f[pos..pos + 8] + f[pos + 8..e];
  }

  lemma PairIsEncoded(f: Bytes, pos: nat) returns (p: Pair)
    requires KVEnd(f, pos).Some?
    ensures Storable(p.value, 0) && AsRead(p) == KVAt(f, pos) && PairBytes(p) == f[pos..KVEnd(f, pos).value]
  {
    hide LE, FromLE, Pow256, StringEnd, ValueEnd, StringBytes, ValueBytes, NumberOf, TextOf, Storable, Number;
    var k, e := StringEnd(f, pos).value, KVEnd(f, pos).value;
    var kind := Number(f, k, 4).value;
    var v := ValueIsEncoded(f, k + 4, kind, 0);
    p := Pair(f[pos + 8..k], v);
    StringIsEncoded(f, pos);
    NumberIsEncoded(f, k, 4);
    ValueIsRead(v);
    assert f[pos..e] == f[pos..k] + f[k..k + 4] + f[k + 4..e];
  }

  /** Metadata read behind some that was: a longer list of pairs, in the bytes passed over. */
  lemma {:induction false} PairsAreEncoded(f: Bytes, pos: nat, n: nat, seen: seq<Pair>) returns (ps: seq<Pair>)
    requires pos <= |f| && pos <= HEADER_LIMIT && AllPairsStorable(seen) && ReadKVs(f, pos, n, AllAsRead(seen)).Some?
    ensures var r := ReadKVs(f, pos, n, AllAsRead(seen)).value;
            && AllPairsStorable(ps) && |ps| == |seen| + n && r.kvs == AllAsRead(ps)
            && pos <= r.end <= |f| && r.end <= HEADER_LIMIT
            && Concat(Raws(AllAsRead(ps))) == Concat(Raws(AllAsRead(seen))) + f[pos..r.end]
    decreases n
  {
    hide KVEnd, KVAt, GENERAL_ALIGNMENT, Storable, PairBytes, FromLE;
    ps := seen;
    if n > 0 {
      var e := KVEnd(f, pos).value;
      var p := PairIsEncoded(f, pos);
      OneMorePair(seen, p);
      ps := PairsAreEncoded(f, e, n - 1, seen + [p]);
      var r := ReadKVs(f, pos, n, AllAsRead(seen)).value;
      assert f[pos..r.end] == f[pos..e] + f[e..r.end];
    }
  }

  lemma OneMorePair(ps: seq<Pair>, p: Pair)
    requires AllPairsStorable(ps) && Storable(p.value, 0) && MayFollow(AllAsRead(ps), AsRead(p))
    ensures AllPairsStorable(ps + [p]) && AllAsRead(ps + [p]) == AllAsRead(ps) + [AsRead(p)]
    ensures Concat(Raws(AllAsRead(ps + [p]))) == Concat(Raws(AllAsRead(ps))) + PairBytes(p)
  {
    hide GENERAL_ALIGNMENT, Storable, PairBytes, FromLE;
    var ks := AllAsRead(ps);
    assert forall i :: 0 <= i < |ps| ==> ks[i].key == ps[i].key;
    assert AllAsRead(ps + [p]) == ks + [AsRead(p)];
    assert Raws(ks + [AsRead(p)])[..|ks|] == Raws(ks);
    assert CodeOf(p.value) == 4 ==> p.value.Scalar? && p.value.t == Uint32;
  }

  /** Dimensions that were read: none empty, their product within the bound, in the bytes passed over. */
  lemma {:induction false} ShapeIsEncoded(f: Bytes, pos: nat, rank: nat, shape: seq<nat>)
    requires pos <= |f| && (forall i :: 0 <= i < |shape| ==> 0 < shape[i]) && 0 < Elements(shape) <= MAX_COUNT
    requires ReadShape(f, pos, rank, Elements(shape), shape).Some?
    ensures var r := ReadShape(f, pos, rank, Elements(shape), shape).value;
            && |r.0| == |shape| + rank && (forall i :: 0 <= i < |r.0| ==> 0 < r.0[i])
            && r.1 == Elements(r.0) <= MAX_COUNT && pos + 8 * rank <= |f|
            && ShapeBytes(r.0) == ShapeBytes(shape) + f[pos..pos + 8 * rank]
    decreases rank
  {
    hide LE, FromLE, Pow256, Number;
    if rank > 0 {
      var n := Number(f, pos, 8).value;
      var more := shape + [n];
      NumberIsEncoded(f, pos, 8);
      assert more[..|shape|] == shape;
      Product(Elements(shape), n, MAX_COUNT);
      ShapeIsEncoded(f, pos + 8, rank - 1, more);
      assert f[pos..pos + 8 * rank] == f[pos..pos + 8] + f[pos + 8..pos + 8 + 8 * (rank - 1)];
    }
  }

  function ElementOf(code: nat): Element {
    if code == 0 then F32 else if code == 1 then F16 else if code == 8 then Q80 else if code == 24 then I8 else Mxfp4
  }

  lemma ElementIsKnown(kind: nat, shape: seq<nat>, count: nat)
    requires SizeOf(kind, shape, count).Some?
    ensures var e := ElementOf(kind);
            ElementCode(e) == kind && Room(e, count) == SizeOf(kind, shape, count).value && shape != [] &&
                shape[0] % Lane(e) == 0
  {}

  lemma TensorIsEncoded(f: Bytes, pos: nat) returns (t: Described)
    requires TensorAt(f, pos).Some?
    ensures var i := TensorAt(f, pos).value;
            && Shaped(t) && TensorOf(t, i.tensor.offset) == i.tensor && pos <= i.end <= |f| && i.end <= HEADER_LIMIT
            && i.tensor.offset < Pow256(8)
            && InfoBytes(i.tensor, i.tensor.offset) == f[pos..i.end]
  {
    hide LE, FromLE, Pow256, SizeOf, ReadShape, Elements, StringBytes, ShapeBytes, StringEnd, Number;
    var tensor, e := TensorAt(f, pos).value.tensor, TensorAt(f, pos).value.end;
    t := Described(tensor.name, tensor.shape, ElementOf(tensor.kind));
    var p := StringEnd(f, pos).value;
    var rank := Number(f, p, 4).value;
    var k := p + 4 + 8 * rank;
    StringIsEncoded(f, pos);
    NumberIsEncoded(f, p, 4);
    NoDimensions();
    ShapeIsEncoded(f, p + 4, rank, []);
    NumberIsEncoded(f, k, 4);
    NumberIsEncoded(f, k + 4, 8);
    ElementIsKnown(tensor.kind, tensor.shape, Elements(tensor.shape));
    assert f[pos..p + 4] == f[pos..p] + f[p..p + 4];
    assert f[pos..k] == f[pos..p + 4] + f[p + 4..k];
    assert f[pos..k + 4] == f[pos..k] + f[k..k + 4];
    assert f[pos..e] == f[pos..k + 4] + f[k + 4..e];
  }

  lemma NoDimensions()
    ensures Elements([]) == 1 && ShapeBytes([]) == []
  {}

  /** Tensors read behind some that were: a longer list, laid out without a gap. */
  lemma {:induction false} TensorsAreEncoded(f: Bytes, pos: nat, n: nat, a: nat, seen: seq<Described>)
      returns (ts: seq<Described>)
    requires a > 0 && pos <= |f| && pos <= HEADER_LIMIT && Fit(seen, a)
    requires ReadTensors(f, pos, n, a, Extent(seen, a), LaidOut(seen, a)).Some?
    ensures var r := ReadTensors(f, pos, n, a, Extent(seen, a), LaidOut(seen, a)).value;
            && Fit(ts, a) && |ts| == |seen| + n && r.tensors == LaidOut(ts, a) && r.offset == Extent(ts, a)
            && pos <= r.end <= |f| && r.end <= HEADER_LIMIT
            && DescriptionsBytes(LaidOut(ts, a)) == DescriptionsBytes(LaidOut(seen, a)) + f[pos..r.end]
    decreases n
  {
    hide TensorAt, Shaped, InfoBytes, Align, Pow256, Room, Elements, Fit, LaidOut, Extent, DescriptionsBytes;
    ts := seen;
    if n > 0 {
      var i := TensorAt(f, pos).value;
      var t := TensorIsEncoded(f, pos);
      OneMoreLaidOut(seen, t, a);
      OneMoreFits(seen, t, a);
      ts := TensorsAreEncoded(f, i.end, n - 1, a, seen + [t]);
      var r := ReadTensors(f, pos, n, a, Extent(seen, a), LaidOut(seen, a)).value;
      assert f[pos..r.end] == f[pos..i.end] + f[i.end..r.end];
    }
  }

  lemma OneMoreLaidOut(ts: seq<Described>, t: Described, a: nat)
    requires a > 0
    ensures var r := TensorOf(t, Extent(ts, a));
            && LaidOut(ts + [t], a) == LaidOut(ts, a) + [r] && Extent(ts + [t], a) == Extent(ts, a) + Align(r.size, a)
            && DescriptionsBytes(LaidOut(ts, a) + [r]) == DescriptionsBytes(LaidOut(ts, a)) + InfoBytes(r, r.offset)
  {
    hide InfoBytes, Align, Room, Elements;
    assert (ts + [t])[..|ts|] == ts;
    var r := TensorOf(t, Extent(ts, a));
    assert (LaidOut(ts, a) + [r])[..|ts|] == LaidOut(ts, a);
  }

  /** Shaped tensors whose offsets fit their fields. */
  predicate Fit(ts: seq<Described>, a: nat)
    requires a > 0
  {
    forall i :: 0 <= i < |ts| ==> Shaped(ts[i]) && Extent(ts[..i], a) < Pow256(8)
  }

  lemma OneMoreFits(ts: seq<Described>, t: Described, a: nat)
    requires a > 0 && Fit(ts, a) && Shaped(t) && Extent(ts, a) < Pow256(8)
    ensures Fit(ts + [t], a)
  {
    hide Shaped, Extent, Pow256;
    forall i | 0 <= i < |ts + [t]| ensures Shaped((ts + [t])[i]) && Extent((ts + [t])[..i], a) < Pow256(8) {
      assert (ts + [t])[..i] == if i < |ts| then ts[..i] else ts;
    }
  }

  /** A file that is accepted holds a shard. */
  lemma ReadIsShard(f: Bytes) returns (s: Parts)
    requires ReadHeader(f).Some?
    ensures Holds(f, s) && ReadHeader(f).value == HeaderOf(s)
  {
    hide LE, FromLE, Pow256, Ascii, ReadKVs, ReadTensors, AlignmentOf, Align, Extent, LaidOut, Storable, Shaped,
         PowerOfTwo, IsAlignment, AllPairsStorable, Alignment, HeaderBytes;
    var nt, nk := FromLE(f[8..16]), FromLE(f[16..24]);
    NoneStored();
    var ps := PairsAreEncoded(f, 24, nk, []);
    AlignmentIsRead(ps);
    var a, m := Alignment(ps), ReadKVs(f, 24, nk, []).value;
    PowersAlign(a);
    NoTensors(a);
    NoneFits(a);
    var ts := TensorsAreEncoded(f, m.end, nt, a, []);
    s := Parts(ps, ts);
    HeaderIsFront(f, s, m.end, ReadTensors(f, m.end, nt, a, 0, []).value.end);
  }

  lemma HeaderIsFront(f: Bytes, s: Parts, m: nat, e: nat)
    requires Fits(f, 0, 24) && f[..4] == Ascii("GGUF") && FromLE(f[4..8]) == 3 && FromLE(f[8..16]) == |s.tensors| &&
             FromLE(f[16..24]) == |s.metadata|
    requires 24 <= m <= e <= |f| && Alignment(s.metadata) > 0
    requires Concat(Raws(AllAsRead(s.metadata))) == f[24..m]
    requires DescriptionsBytes(LaidOut(s.tensors, Alignment(s.metadata))) == f[m..e]
    ensures HeaderBytes(s) == f[..e]
  {
    hide LE, FromLE, Pow256, Ascii, Alignment, LaidOut, DescriptionsBytes, Metadata;
    NumberIsEncoded(f, 4, 4);
    NumberIsEncoded(f, 8, 8);
    NumberIsEncoded(f, 16, 8);
    MetadataIs(s);
    assert f[..e] == f[..4] + f[4..8] + f[8..16] + f[16..24] + f[24..m] + f[m..e];
  }

  lemma NoneStored()
    ensures AllPairsStorable([]) && AllAsRead([]) == [] && Concat(Raws([])) == []
  {}

  lemma NoneFits(a: nat)
    requires a > 0
    ensures Fit([], a)
  {}

  /** The reader accepts exactly the files that hold a shard, whatever its values, its tensors and its alignment, stated
      or by default, and returns the header that was written. */
  lemma ReadExactly(f: Bytes, h: Header)
    ensures ReadHeader(f) == Some(h) <==> exists s: Parts :: Holds(f, s) && HeaderOf(s) == h
  {
    hide ReadHeader, HeaderOf, HeaderBytes, Extent, Shaped, AllPairsStorable, Alignment, Align, PowerOfTwo;
    if ReadHeader(f) == Some(h) {
      var s := ReadIsShard(f);
    }
    forall s: Parts | Holds(f, s) && HeaderOf(s) == h ensures ReadHeader(f) == Some(h) {
      ShardReads(f, s);
    }
  }
}
