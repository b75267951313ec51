/** The merged header reads back (internal/models/gguf_merge.go:105-297): the reader accepts what the planner
    writes, with the first shard's metadata, every tensor and its new place. */
module GgufReadBack {
  import opened Text
  import opened GgufFormat
  import opened GgufPlan

  // ----- pieces of a written header -----

  /** `part` lies at `q`, within the reader's limits. */
  predicate Written(g: Bytes, q: nat, part: Bytes) {
    Fits(g, q, |part|) && g[q..q + |part|] == part
  }

  lemma WrittenPart(g: Bytes, q: nat, part: Bytes, i: nat, k: nat)
    requires Written(g, q, part) && i + k <= |part|
    ensures Written(g, q + i, part[i..i + k])
  {
    Slice(g, q, |part|, i, k);
  }

  lemma WrittenSplit(g: Bytes, q: nat, a: Bytes, b: Bytes)
    requires Written(g, q, a + b)
    ensures Written(g, q, a) && Written(g, q + |a|, b)
  {
    WrittenPart(g, q, a + b, 0, |a|);
    WrittenPart(g, q, a + b, |a|, |b|);
    assert (a + b)[0..0 + |a|] == a && (a + b)[|a|..|a| + |b|] == b;
  }

  lemma NumberReadBack(g: Bytes, q: nat, n: nat, k: nat)
    requires n < Pow256(k) && Written(g, q, LE(n, k))
    ensures Number(g, q, k) == Some(n)
  {
    hide LE, FromLE;
    LERoundTrip(n, k);
  }

  lemma Widths()
    ensures Pow256(4) == 0x1_0000_0000 && Pow256(8) == 0x1_0000_0000_0000_0000
  {
    assert Pow256(2) == 65536;
    assert Pow256(4) == 256 * (256 * Pow256(2));
    assert Pow256(6) == 256 * (256 * Pow256(4));
    assert Pow256(8) == 256 * (256 * Pow256(6));
  }

  lemma StringReadBack(g: Bytes, q: nat, s: Bytes)
    requires Written(g, q, StringBytes(s))
    ensures StringEnd(g, q) == Some(q + 8 + |s|) && g[q + 8..q + 8 + |s|] == s
  {
    hide LE, FromLE, Pow256;
    Widths();
    WrittenSplit(g, q, LE(|s|, 8), s);
    NumberReadBack(g, q, |s|, 8);
  }

  lemma {:induction false} ConcatPrefix(parts: seq<Bytes>, i: nat)
    requires i < |parts|
    ensures Concat(parts[..i + 1]) == Concat(parts[..i]) + parts[i] && Concat(parts[..i + 1]) <= Concat(parts)
  {
    assert parts[..i + 1][..i] == parts[..i];
    if i + 1 == |parts| {
      assert parts[..i + 1] == parts;
    } else {
      var init := parts[..|parts| - 1];
      assert init[..i + 1] == parts[..i + 1] && init[..i] == parts[..i];
      ConcatPrefix(init, i);
    }
  }

  // ----- metadata -----

  /** A pair as some file holds it. */
  ghost predicate Genuine(kv: KV) {
    exists f: Bytes, pos: nat :: KVEnd(f, pos).Some? && KVAt(f, pos) == kv
  }

  lemma GenuineReads(kv: KV, g: Bytes, q: nat)
    requires Genuine(kv) && Written(g, q, kv.raw)
    ensures KVEnd(g, q) == Some(q + |kv.raw|) && KVAt(g, q) == kv
  {
    hide KVEnd, NumberOf, TextOf, StringEnd, Number;
    var f: Bytes, pos: nat :| KVEnd(f, pos).Some? && KVAt(f, pos) == kv;
    var e := KVEnd(f, pos).value;
    assert kv.raw == f[pos..e];
    KVLocal(f, pos, g, q);
  }

  predicate DistinctKeys(kvs: seq<KV>) {
    forall i, j :: 0 <= i < j < |kvs| ==> kvs[i].key != kvs[j].key
  }

  ghost predicate AllGenuine(kvs: seq<KV>) {
    forall i :: 0 <= i < |kvs| ==> Genuine(kvs[i])
  }

  /** Whatever metadata was read is genuine, with distinct keys. */
  lemma {:induction false} ReadIsGenuine(f: Bytes, pos: nat, n: nat, seen: seq<KV>)
    requires AllGenuine(seen) && DistinctKeys(seen)
    ensures ReadKVs(f, pos, n, seen).Some? ==>
              var r := ReadKVs(f, pos, n, seen).value;
              AllGenuine(r.kvs) && DistinctKeys(r.kvs) && |r.kvs| == |seen| + n
    decreases n
  {
    hide KVAt, KVEnd;
    if n > 0 && KVEnd(f, pos).Some? {
      var kv := KVAt(f, pos);
      assert Genuine(kv);
      if MayFollow(seen, kv) {
        StaysDistinct(seen, kv);
        ReadIsGenuine(f, KVEnd(f, pos).value, n - 1, seen + [kv]);
      }
    }
  }

  lemma StaysDistinct(kvs: seq<KV>, kv: KV)
    requires DistinctKeys(kvs) && !HasKey(kvs, kv.key)
    ensures DistinctKeys(kvs + [kv])
  {}

  predicate IsSplitKey(key: Bytes) {
    key == SPLIT_NO() || key == SPLIT_COUNT() || key == SPLIT_TENSORS()
  }

  /** A pair as the merged file holds it. */
  function Rewritten(kv: KV): KV {
    if kv.key == GENERAL_ALIGNMENT() then KV(kv.key, 4, AlignmentRaw(), ALIGNMENT, []) else kv
  }

  /** The merged file's metadata: the first shard's, without the split keys and with the alignment rewritten. */
  function Kept(kvs: seq<KV>): seq<KV> {
    if kvs == [] then []
    else Kept(kvs[..|kvs| - 1]) + if IsSplitKey(kvs[|kvs| - 1].key) then [] else [Rewritten(kvs[|kvs| - 1])]
  }

  function Raws(kvs: seq<KV>): (r: seq<Bytes>)
    ensures |r| == |kvs|
  {
    seq(|kvs|, i requires 0 <= i < |kvs| => kvs[i].raw)
  }

  /** The planner keeps exactly that. */
  lemma {:induction false} AccountedKeeps(kvs: seq<KV>, count: nat, total: nat)
    requires Accounted(kvs, 0, count, total).Some?
    ensures var s := Accounted(kvs, 0, count, total).value;
            s.metadata == Raws(Kept(kvs)) && (s.alignment ==> HasKey(Kept(kvs), GENERAL_ALIGNMENT()))
  {
    hide AlignmentRaw, SPLIT_NO, SPLIT_COUNT, SPLIT_TENSORS, SPLIT_PREFIX, GENERAL_ALIGNMENT, ARCHITECTURE, DEEPSEEK;
    if kvs != [] {
      var init, kv := kvs[..|kvs| - 1], kvs[|kvs| - 1];
      AccountedKeeps(init, count, total);
      if !IsSplitKey(kv.key) {
        assert Raws(Kept(init) + [Rewritten(kv)]) == Raws(Kept(init)) + [Rewritten(kv).raw];
        KeyStays(Kept(init), Rewritten(kv), GENERAL_ALIGNMENT());
      } else {
        assert Kept(kvs) == Kept(init);
      }
    }
  }

  lemma KeyStays(kvs: seq<KV>, kv: KV, key: Bytes)
    ensures HasKey(kvs, key) || kv.key == key ==> HasKey(kvs + [kv], key)
  {
    if HasKey(kvs, key) {
      var i :| 0 <= i < |kvs| && kvs[i].key == key;
      assert (kvs + [kv])[i].key == key;
    }
    assert (kvs + [kv])[|kvs|] == kv;
  }

  lemma AlignmentIsGenuine()
    ensures Genuine(KV(GENERAL_ALIGNMENT(), 4, AlignmentRaw(), ALIGNMENT, []))
  {
    hide LE, FromLE, Pow256, Ascii;
    Widths();
    var key := GENERAL_ALIGNMENT();
    var f := AlignmentRaw();
    assert |key| == 17 && |f| == 33;
    assert f[0..0 + 33] == f;
    assert Written(f, 0, f);
    WrittenSplit(f, 0, StringBytes(key) + LE(4, 4), LE(ALIGNMENT, 4));
    WrittenSplit(f, 0, StringBytes(key), LE(4, 4));
    StringReadBack(f, 0, key);
    NumberReadBack(f, 25, 4, 4);
    NumberReadBack(f, 29, ALIGNMENT, 4);
    assert f[29..33][..4] == f[29..33];
    assert KVEnd(f, 0) == Some(33);
    assert KVAt(f, 0) == KV(key, 4, f[0..33], ALIGNMENT, []);
  }

  /** Keeping changes no key and makes none twice. */
  lemma {:induction false} KeptIsGenuine(kvs: seq<KV>)
    requires AllGenuine(kvs) && DistinctKeys(kvs)
    ensures AllGenuine(Kept(kvs)) && DistinctKeys(Kept(kvs)) && |Kept(kvs)| <= |kvs|
    ensures forall k :: HasKey(Kept(kvs), k) ==> HasKey(kvs, k)
    ensures forall i ::
            0 <= i < |Kept(kvs)| && Kept(kvs)[i].key == GENERAL_ALIGNMENT() ==>
                Kept(kvs)[i].kind == 4 && Kept(kvs)[i].number == ALIGNMENT
  {
    hide Genuine, AlignmentRaw, GENERAL_ALIGNMENT, IsSplitKey;
    if kvs != [] {
      var init, kv := kvs[..|kvs| - 1], kvs[|kvs| - 1];
      assert forall i :: 0 <= i < |init| ==> init[i] == kvs[i];
      KeptIsGenuine(init);
      AlignmentIsGenuine();
      assert kvs == init + [kv];
      assert !HasKey(init, kv.key);
      StaysDistinct(Kept(init), Rewritten(kv));
      forall k ensures HasKey(Kept(kvs), k) ==> HasKey(kvs, k) {
        KeyStays(init, kv, k);
      }
    }
  }

  /** Written pairs are read back one after the other. */
  lemma {:induction false} KVsReadBack(g: Bytes, q: nat, ks: seq<KV>, i: nat)
    requires i <= |ks| && AllGenuine(ks) && DistinctKeys(ks) && Written(g, q, Concat(Raws(ks)))
    requires forall j :: 0 <= j < |ks| && ks[j].key == GENERAL_ALIGNMENT() ==> ks[j].kind == 4
    ensures ReadKVs(g, q + |Concat(Raws(ks[..i]))|, |ks| - i, ks[..i]) == Some(KVs(ks, q + |Concat(Raws(ks))|))
    decreases |ks| - i
  {
    hide Genuine, KVEnd, KVAt, GENERAL_ALIGNMENT, Concat;
    if i == |ks| {
      assert ks[..i] == ks;
    } else {
      var p := |Concat(Raws(ks[..i]))|;
      assert Raws(ks[..i]) == Raws(ks)[..i] && Raws(ks[..i + 1]) == Raws(ks)[..i + 1];
      ConcatPrefix(Raws(ks), i);
      var all := Concat(Raws(ks));
      var upto := Concat(Raws(ks)[..i + 1]);
      assert all[p..p + |ks[i].raw|] == ks[i].raw by {
        assert all[..|upto|] == upto;
        assert upto[p..p + |ks[i].raw|] == ks[i].raw;
      }
      WrittenPart(g, q, all, p, |ks[i].raw|);
      GenuineReads(ks[i], g, q + p);
      assert ks[..i + 1] == ks[..i] + [ks[i]];
      KVsReadBack(g, q, ks, i + 1);
    }
  }

  lemma {:induction false} AlignmentKept(ks: seq<KV>)
    requires HasKey(ks, GENERAL_ALIGNMENT())
    requires forall i :: 0 <= i < |ks| && ks[i].key == GENERAL_ALIGNMENT() ==> ks[i].number == ALIGNMENT
    ensures AlignmentOf(ks) == ALIGNMENT
  {
    hide GENERAL_ALIGNMENT;
    var init, kv := ks[..|ks| - 1], ks[|ks| - 1];
    if kv.key != GENERAL_ALIGNMENT() {
      var i :| 0 <= i < |ks| && ks[i].key == GENERAL_ALIGNMENT();
      assert init[i] == ks[i];
      AlignmentKept(init);
    }
  }

  // ----- tensors -----

  /** The elements of a shape, if each dimension and their product stay within the reader's bound. */
  function CountOf(shape: seq<nat>): (c: Option<nat>)
    ensures c.Some? ==> 0 < c.value
  {
    if shape == [] then Some(1)
    else match CountOf(shape[..|shape| - 1])
      case None => None
      case Some(c) =>
        var n := shape[|shape| - 1];
        if n == 0 || n > MAX_COUNT / c then None else Some(c * n)
  }

  predicate Wide(shape: seq<nat>) {
    forall i :: 0 <= i < |shape| ==> shape[i] < Pow256(8)
  }

  lemma {:induction false} ReadShapeIs(f: Bytes, pos: nat, rank: nat, count: nat, shape: seq<nat>)
    requires count > 0 && CountOf(shape) == Some(count) && Wide(shape)
    ensures ReadShape(f, pos, rank, count, shape).Some? ==>
              var r := ReadShape(f, pos, rank, count,
                                 shape).value; CountOf(r.0) == Some(r.1) && |r.0| == |shape| + rank && Wide(r.0)
    decreases rank
  {
    hide FromLE, Pow256;
    if rank > 0 && Number(f, pos, 8).Some? {
      var n := Number(f, pos, 8).value;
      FromLEBounded(f[pos..pos + 8]);
      assert (shape + [n])[..|shape|] == shape;
      if n != 0 && n <= MAX_COUNT / count {
        ReadShapeIs(f, pos + 8, rank - 1, count * n, shape + [n]);
      }
    }
  }

  lemma {:induction false} ShapeBytesAt(shape: seq<nat>, i: nat)
    requires i < |shape|
    ensures ShapeBytes(shape)[8 * i..8 * i + 8] == LE(shape[i], 8)
  {
    hide LE;
    var init, n := shape[..|shape| - 1], shape[|shape| - 1];
    if i < |init| {
      ShapeBytesAt(init, i);
      assert ShapeBytes(shape)[8 * i..8 * i + 8] == ShapeBytes(init)[8 * i..8 * i + 8];
    }
  }

  lemma {:induction false} CountOfPrefix(shape: seq<nat>, i: nat)
    requires i <= |shape| && CountOf(shape).Some?
    ensures CountOf(shape[..i]).Some?
  {
    if i == |shape| {
      assert shape[..i] == shape;
    } else {
      assert shape[..|shape| - 1][..i] == shape[..i];
      CountOfPrefix(shape[..|shape| - 1], i);
    }
  }

  lemma {:induction false} ShapeReadBack(g: Bytes, q: nat, shape: seq<nat>, i: nat)
    requires i <= |shape| && CountOf(shape).Some? && Wide(shape) && Written(g, q, ShapeBytes(shape)) &&
             CountOf(shape[..i]).Some?
    ensures ReadShape(g, q + 8 * i, |shape| - i, CountOf(shape[..i]).value, shape[..i]) ==
            Some((shape, CountOf(shape).value))
    decreases |shape| - i
  {
    hide LE, FromLE, Pow256, ShapeBytes, Number, Written;
    if i == |shape| {
      assert shape[..i] == shape;
    } else {
      ShapeBytesAt(shape, i);
      WrittenPart(g, q, ShapeBytes(shape), 8 * i, 8);
      NumberReadBack(g, q + 8 * i, shape[i], 8);
      CountOfPrefix(shape, i + 1);
      assert shape[..i + 1][..i] == shape[..i] && shape[..i + 1] == shape[..i] + [shape[i]];
      ShapeReadBack(g, q, shape, i + 1);
    }
  }

  /** What a description that was read satisfies. */
  predicate WellRead(t: Tensor) {
    && |t.name| < Pow256(8) && 1 <= |t.shape| <= 4 && Wide(t.shape) && t.kind < Pow256(4)
    && CountOf(t.shape).Some? && SizeOf(t.kind, t.shape, CountOf(t.shape).value) == Some(t.size)
  }

  lemma TensorIsWellRead(f: Bytes, pos: nat)
    ensures TensorAt(f, pos).Some? ==> WellRead(TensorAt(f, pos).value.tensor)
  {
    hide FromLE, Pow256, SizeOf, ReadShape, CountOf, Wide;
    Widths();
    if TensorAt(f, pos).Some? {
      var p := StringEnd(f, pos).value;
      var rank := Number(f, p, 4).value;
      NothingCounted();
      ReadShapeIs(f, p + 4, rank, 1, []);
      var k := p + 4 + 8 * rank;
      FromLEBounded(f[k..k + 4]);
    }
  }

  lemma NothingCounted()
    ensures CountOf([]) == Some(1) && Wide([])
  {}

  lemma InfoReadBack(g: Bytes, q: nat, t: Tensor, offset: nat)
    requires WellRead(t) && offset < Pow256(8) && Written(g, q, InfoBytes(t, offset))
    ensures TensorAt(g, q) == Some(Info(t.(offset := offset), q + |InfoBytes(t, offset)|))
  {
    hide LE, FromLE, Pow256, SizeOf, ReadShape, CountOf, Wide, ShapeBytes, StringBytes, StringEnd, Number;
    Widths();
    var name, rank, shape, kind, place := StringBytes(t.name), LE(|t.shape|, 4), ShapeBytes(t.shape), LE(t.kind, 4),
        LE(offset, 8);
    WrittenSplit(g, q, name + rank + shape + kind, place);
    WrittenSplit(g, q, name + rank + shape, kind);
    WrittenSplit(g, q, name + rank, shape);
    WrittenSplit(g, q, name, rank);
    StringReadBack(g, q, t.name);
    StringLength(t.name);
    var p := q + 8 + |t.name|;
    NumberReadBack(g, p, |t.shape|, 4);
    NothingCounted();
    assert t.shape[..0] == [];
    ShapeReadBack(g, p + 4, t.shape, 0);
    var k := p + 4 + 8 * |t.shape|;
    NumberReadBack(g, k, t.kind, 4);
    NumberReadBack(g, k + 4, offset, 8);
  }

  lemma StringLength(s: Bytes)
    ensures |StringBytes(s)| == 8 + |s|
  {}

  /** The tensors in their new places. */
  function Placed(ts: seq<Tensor>): (r: seq<Tensor>)
    ensures |r| == |ts|
  {
    if ts == [] then [] else Placed(ts[..|ts| - 1]) + [ts[|ts| - 1].(offset := DataSize(ts[..|ts| - 1]))]
  }

  lemma {:induction false} PlacedAt(ts: seq<Tensor>, i: nat)
    requires i < |ts|
    ensures Placed(ts)[i] == ts[i].(offset := DataSize(ts[..i])) && Placed(ts[..i + 1]) == Placed(ts)[..i + 1]
  {
    hide DataSize;
    if i + 1 == |ts| {
      assert ts[..i + 1] == ts && ts[..|ts| - 1] == ts[..i];
    } else {
      var init := ts[..|ts| - 1];
      assert init[..i + 1] == ts[..i + 1] && init[..i] == ts[..i];
      PlacedAt(init, i);
    }
  }

  lemma {:induction false} DataSizeGrows(ts: seq<Tensor>, i: nat)
    requires i < |ts|
    ensures DataSize(ts[..i]) + ts[i].size <= DataSize(ts[..i + 1]) == DataSize(ts[..i]) + Align(ts[i].size, ALIGNMENT)
    ensures DataSize(ts[..i + 1]) <= DataSize(ts) && DataSize(ts[..i]) % ALIGNMENT == 0
  {
    hide Align;
    AlignIsNext(ts[i].size, ALIGNMENT);
    assert ts[..i + 1][..i] == ts[..i];
    DataSizeAligned(ts[..i]);
    if i + 1 == |ts| {
      assert ts[..i + 1] == ts;
    } else {
      var init := ts[..|ts| - 1];
      assert init[..i + 1] == ts[..i + 1] && init[..i] == ts[..i];
      DataSizeGrows(init, i);
    }
  }

  lemma {:induction false} DataSizeAligned(ts: seq<Tensor>)
    ensures DataSize(ts) % ALIGNMENT == 0
  {
    hide Align;
    if ts != [] {
      DataSizeAligned(ts[..|ts| - 1]);
      AlignedIsMultiple(ts[|ts| - 1].size);
    }
  }

  lemma {:induction false} InfosPrefix(ts: seq<Tensor>, i: nat)
    requires i < |ts|
    ensures InfosBytes(ts[..i + 1]) == InfosBytes(ts[..i]) + InfoBytes(ts[i], DataSize(ts[..i]))
    ensures InfosBytes(ts[..i + 1]) <= InfosBytes(ts)
  {
    hide InfoBytes, DataSize;
    assert ts[..i + 1][..i] == ts[..i];
    if i + 1 == |ts| {
      assert ts[..i + 1] == ts;
    } else {
      var init := ts[..|ts| - 1];
      assert init[..i + 1] == ts[..i + 1] && init[..i] == ts[..i];
      InfosPrefix(init, i);
    }
  }

  predicate AllWellRead(ts: seq<Tensor>) {
    forall i :: 0 <= i < |ts| ==> WellRead(ts[i])
  }

  /** Written descriptions are read back one after the other, each in its new place. */
  lemma {:induction false} InfosReadBack(g: Bytes, q: nat, ts: seq<Tensor>, i: nat)
    requires i <= |ts| && AllWellRead(ts) && Written(g, q, InfosBytes(ts)) && DataSize(ts) <= |g| < Pow256(8)
    ensures ReadTensors(g, q + |InfosBytes(ts[..i])|, |ts| - i, ALIGNMENT, DataSize(ts[..i]), Placed(ts[..i])) ==
            Some(Tensors(Placed(ts), q + |InfosBytes(ts)|, DataSize(ts)))
    decreases |ts| - i
  {
    hide Pow256, WellRead, TensorAt, InfoBytes, InfosBytes, DataSize, Placed, Align;
    if i == |ts| {
      assert ts[..i] == ts;
    } else {
      var p := |InfosBytes(ts[..i])|;
      var offset := DataSize(ts[..i]);
      var info := InfoBytes(ts[i], offset);
      InfosPrefix(ts, i);
      DataSizeGrows(ts, i);
      var all := InfosBytes(ts);
      assert all[p..p + |info|] == info by {
        assert all[..p + |info|] == InfosBytes(ts[..i + 1]);
        assert InfosBytes(ts[..i + 1])[p..p + |info|] == info;
      }
      WrittenPart(g, q, all, p, |info|);
      InfoReadBack(g, q + p, ts[i], offset);
      PlacedOneMore(ts, i);
      InfosReadBack(g, q, ts, i + 1);
    }
  }

  lemma PlacedOneMore(ts: seq<Tensor>, i: nat)
    requires i < |ts|
    ensures Placed(ts[..i + 1]) == Placed(ts[..i]) + [ts[i].(offset := DataSize(ts[..i]))]
  {
    hide DataSize;
    assert ts[..i + 1][..i] == ts[..i];
  }

  // ----- the header -----

  lemma FrontReadBack(g: Bytes, nt: nat, nk: nat, rest: Bytes)
    requires nt <= MAX_ITEMS && nk <= MAX_ITEMS
    requires Written(g, 0, Ascii("GGUF") + LE(3, 4) + LE(nt, 8) + LE(nk, 8) + rest)
    ensures Fits(g, 0, 24) && g[..4] == Ascii("GGUF") && FromLE(g[4..8]) == 3 && FromLE(g[8..16]) == nt &&
            FromLE(g[16..24]) == nk
    ensures Written(g, 24, rest)
  {
    hide LE, FromLE, Pow256, Ascii;
    Widths();
    var a, b, c, d := Ascii("GGUF"), LE(3, 4), LE(nt, 8), LE(nk, 8);
    WrittenSplit(g, 0, a + b + c + d, rest);
    WrittenSplit(g, 0, a + b + c, d);
    WrittenSplit(g, 0, a + b, c);
    WrittenSplit(g, 0, a, b);
    NumberReadBack(g, 4, 3, 4);
    NumberReadBack(g, 8, nt, 8);
    NumberReadBack(g, 16, nk, 8);
    assert g[0..0 + 4] == g[..4];
  }

  /** A file that begins with the planned header and is as long as planned reads back, whatever its data is. */
  lemma HeaderReadsBack(ks: seq<KV>, ts: seq<Tensor>, g: Bytes)
    requires AllGenuine(ks) && DistinctKeys(ks) && HasKey(ks, GENERAL_ALIGNMENT()) && |ks| <= MAX_ITEMS
    requires forall i ::
             0 <= i < |ks| && ks[i].key == GENERAL_ALIGNMENT() ==> ks[i].kind == 4 && ks[i].number == ALIGNMENT
    requires AllWellRead(ts) && |ts| <= MAX_ITEMS
    requires var raw := RawHeader(Raws(ks), ts);
             |raw| <= HEADER_LIMIT && raw <= g && |g| == Align(|raw|, ALIGNMENT) + DataSize(ts) && |g| < Pow256(8)
    ensures ReadHeader(g) == Some(Header(ks, Placed(ts), Align(|RawHeader(Raws(ks), ts)|, ALIGNMENT)))
  {
    hide AllGenuine, GENERAL_ALIGNMENT, LE, FromLE, Pow256, Ascii, Concat, Raws, InfosBytes, DataSize, Placed, Align,
         ReadKVs, ReadTensors, AlignmentOf, HasKey, AllWellRead;
    var raw := RawHeader(Raws(ks), ts);
    var metadata, infos := Concat(Raws(ks)), InfosBytes(ts);
    assert raw == Ascii("GGUF") + LE(3, 4) + LE(|ts|, 8) + LE(|ks|, 8) + (metadata + infos);
    assert g[0..0 + |raw|] == raw;
    FrontReadBack(g, |ts|, |ks|, metadata + infos);
    WrittenSplit(g, 24, metadata, infos);
    Nothing();
    assert ks[..0] == [] && ts[..0] == [];
    KVsReadBack(g, 24, ks, 0);
    AlignmentKept(ks);
    InfosReadBack(g, 24 + |metadata|, ts, 0);
    assert |raw| == 24 + |metadata| + |infos|;
  }

  lemma Nothing()
    ensures Concat(Raws([])) == [] && InfosBytes([]) == [] && DataSize([]) == 0 && Placed([]) == []
  {}
}
