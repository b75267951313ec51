/** The merged file (internal/models/gguf_merge.go): what it holds, and that the reader accepts it. */
module GgufMerge {
  import opened Text
  import opened GgufFormat
  import opened GgufPlan
  import opened GgufReadBack

  // ----- the image -----

  /** `n` bytes at `a`, if they are there. */
  function Part(f: Bytes, a: nat, n: nat): Bytes {
    if a + n <= |f| then f[a..a + n] else []
  }

  /** The bytes of every tensor of a shard. */
  function ShardBlobs(f: Bytes, data: nat, ts: seq<Tensor>): (r: seq<Bytes>)
    ensures |r| == |ts|
  {
    seq(|ts|, i requires 0 <= i < |ts| => Part(f, data + ts[i].offset, ts[i].size))
  }

  function Blobs(fs: seq<Bytes>, hs: seq<Header>): (r: seq<Bytes>)
    requires |fs| == |hs|
    ensures |r| == |AllTensors(hs)|
  {
    if hs == [] then []
    else
      var n := |hs| - 1;
      Blobs(fs[..n], hs[..n]) + ShardBlobs(fs[n], hs[n].data, hs[n].tensors)
  }

  /** A tensor's bytes, padded to the next multiple of the alignment. */
  function PaddedBlob(b: Bytes): (p: Bytes)
    ensures b <= p && |p| == Align(|b|, ALIGNMENT)
  {
    AlignIsNext(|b|, ALIGNMENT);
    b + Zeros(Align(|b|, ALIGNMENT) - |b|)
  }

  function PaddedBlobs(blobs: seq<Bytes>): (r: seq<Bytes>)
    ensures |r| == |blobs|
  {
    seq(|blobs|, i requires 0 <= i < |blobs| => PaddedBlob(blobs[i]))
  }

  /** The merged file. */
  function Image(fs: seq<Bytes>, hs: seq<Header>, header: Bytes): Bytes
    requires |fs| == |hs|
  {
    header + Concat(PaddedBlobs(Blobs(fs, hs)))
  }

  /** Every shard is a file the reader accepts. */
  predicate AllRead(fs: seq<Bytes>, hs: seq<Header>) {
    |fs| == |hs| && forall i :: 0 <= i < |fs| ==> ReadHeader(fs[i]) == Some(hs[i])
  }

  // ----- shards hold what their headers say -----

  /** The tensors read lie in the data, one behind the other. */
  predicate LiesWithin(ts: seq<Tensor>, offset: nat) {
    forall i :: 0 <= i < |ts| ==> ts[i].offset + ts[i].size <= offset
  }

  lemma {:induction false} ReadLiesWithin(f: Bytes, pos: nat, n: nat, align: nat, offset: nat, seen: seq<Tensor>)
    requires align > 0 && LiesWithin(seen, offset) && AllWellRead(seen)
    ensures ReadTensors(f, pos, n, align, offset, seen).Some? ==>
              var r := ReadTensors(f, pos, n, align, offset, seen).value;
              LiesWithin(r.tensors, r.offset) && AllWellRead(r.tensors)
    decreases n
  {
    hide TensorAt, WellRead, Align;
    if n > 0 && TensorAt(f, pos).Some? {
      var i := TensorAt(f, pos).value;
      TensorIsWellRead(f, pos);
      AlignIsNext(i.tensor.size, align);
      if i.tensor.offset == offset && offset + i.tensor.size <= |f| {
        ReadLiesWithin(f, i.end, n - 1, align, offset + Align(i.tensor.size, align), seen + [i.tensor]);
      }
    }
  }

  /** A header that was read: genuine metadata, whole tensors inside the file. */
  ghost predicate Trusted(f: Bytes, h: Header) {
    && AllGenuine(h.kv) && DistinctKeys(h.kv) && |h.kv| <= MAX_ITEMS && AllWellRead(h.tensors)
    && forall i :: 0 <= i < |h.tensors| ==> h.data + h.tensors[i].offset + h.tensors[i].size <= |f|
  }

  lemma ReadIsTrusted(f: Bytes, h: Header)
    requires ReadHeader(f) == Some(h)
    ensures Trusted(f, h)
  {
    assert AllGenuine([]) && DistinctKeys([]) && LiesWithin([], 0) && AllWellRead([]);
    hide FromLE, ReadKVs, ReadTensors, AlignmentOf, Align, AllGenuine, WellRead, Ascii, IsAlignment;
    var nt, nk := FromLE(f[8..16]), FromLE(f[16..24]);
    ReadIsGenuine(f, 24, nk, []);
    var m := ReadKVs(f, 24, nk, []).value;
    ReadLiesWithin(f, m.end, nt, AlignmentOf(m.kvs), 0, []);
  }

  lemma {:induction false} AllTrusted(fs: seq<Bytes>, hs: seq<Header>)
    requires AllRead(fs, hs)
    ensures AllWellRead(AllTensors(hs))
    ensures forall i :: 0 <= i < |AllTensors(hs)| ==> |Blobs(fs, hs)[i]| == AllTensors(hs)[i].size
  {
    hide ReadHeader, WellRead;
    if hs != [] {
      var n := |hs| - 1;
      assert forall i :: 0 <= i < n ==> fs[..n][i] == fs[i] && hs[..n][i] == hs[i];
      AllTrusted(fs[..n], hs[..n]);
      ReadIsTrusted(fs[n], hs[n]);
      BlobsFit(fs[n], hs[n]);
      assert Blobs(fs, hs) == Blobs(fs[..n], hs[..n]) + ShardBlobs(fs[n], hs[n].data, hs[n].tensors);
    }
  }

  lemma BlobsFit(f: Bytes, h: Header)
    requires Trusted(f, h)
    ensures forall i :: 0 <= i < |h.tensors| ==>
              ShardBlobs(f, h.data, h.tensors)[i] ==
                  f[h.data + h.tensors[i].offset..h.data + h.tensors[i].offset + h.tensors[i].size]
              && |ShardBlobs(f, h.data, h.tensors)[i]| == h.tensors[i].size
  {
    hide AllGenuine, AllWellRead;
  }

  // ----- the image reads back -----

  lemma {:induction false} BlobsSize(blobs: seq<Bytes>, ts: seq<Tensor>)
    requires |blobs| == |ts| && forall i :: 0 <= i < |ts| ==> |blobs[i]| == ts[i].size
    ensures |Concat(PaddedBlobs(blobs))| == DataSize(ts)
  {
    hide Align;
    if ts != [] {
      var n := |ts| - 1;
      assert forall i :: 0 <= i < n ==> blobs[..n][i] == blobs[i] && ts[..n][i] == ts[i];
      BlobsSize(blobs[..n], ts[..n]);
      assert PaddedBlobs(blobs)[..n] == PaddedBlobs(blobs[..n]);
    }
  }

  /** Tensor `k`'s bytes lie at its new place. */
  lemma BlobAt(blobs: seq<Bytes>, ts: seq<Tensor>, header: Bytes, k: nat)
    requires |blobs| == |ts| && (forall i :: 0 <= i < |ts| ==> |blobs[i]| == ts[i].size) && k < |ts|
    ensures var g := header + Concat(PaddedBlobs(blobs));
            var a := |header| + DataSize(ts[..k]);
            a + ts[k].size <= |g| && g[a..a + ts[k].size] == blobs[k]
  {
    hide DataSize, Concat, Align;
    var padded := PaddedBlobs(blobs);
    ConcatPrefix(padded, k);
    assert padded[..k] == PaddedBlobs(blobs[..k]);
    assert forall i :: 0 <= i < k ==> blobs[..k][i] == blobs[i] && ts[..k][i] == ts[i];
    BlobsSize(blobs[..k], ts[..k]);
    var all, upto, before := Concat(padded), Concat(padded[..k + 1]), Concat(padded[..k]);
    var n := |before|;
    assert upto == before + padded[k] && |padded[k]| >= ts[k].size;
    assert var a := |header| + |before|;
           a + |blobs[k]| <= |header + all| && (header + all)[a..a + |blobs[k]|] == blobs[k] by {
      var n := |before|;
      assert all[..|upto|] == upto;
      assert all[n..n + |blobs[k]|] == upto[n..n + |blobs[k]|] == padded[k][..|blobs[k]|] == blobs[k];
      assert (header + all)[|header| + n..|header| + n + |blobs[k]|] == all[n..n + |blobs[k]|];
    }
  }

  /** The merged file of every accepted shard set within the reader's limits: it is as long as planned, the reader
      accepts it, and it holds the shards' tensors in order, the same in name, shape, kind, size and bytes, at
      offsets that are multiples of the alignment, under the first shard's metadata without the split keys. */
  lemma MergedReadsBack(fs: seq<Bytes>, hs: seq<Header>, plan: Plan)
    requires AllRead(fs, hs) && PlanOf(hs) == Some(plan)
    requires |RawHeader(Metadata(hs), AllTensors(hs))| <= HEADER_LIMIT && |AllTensors(hs)| <= MAX_ITEMS &&
             plan.total < Pow256(8)
    ensures var g, ts := Image(fs, hs, plan.header), AllTensors(hs);
            && |g| == plan.total
            && ReadHeader(g) == Some(Header(Kept(hs[0].kv), Placed(ts), |plan.header|))
            && forall k :: 0 <= k < |ts| ==> SameTensor(g, |plan.header|, Placed(ts)[k], ts[k], Blobs(fs, hs)[k])
  {
    hide ReadHeader, Accounted, RawHeader, DataSize, Pow256, Align, AllGenuine, AllWellRead, Kept, Concat,
         PaddedBlobs, Placed, Raws, DistinctNames, GENERAL_ALIGNMENT, HasKey, Blobs, AllTensors;
    var ts, kvs := AllTensors(hs), hs[0].kv;
    var g := Image(fs, hs, plan.header);
    AllTrusted(fs, hs);
    ReadIsTrusted(fs[0], hs[0]);
    assert Accounted(hs[0].kv, 0, |hs|, |AllTensors(hs)|).Some? &&
           Accounted(hs[0].kv, 0, |hs|, |AllTensors(hs)|).value.alignment by {
      assert Acceptable(hs[0], 0, |hs|, |AllTensors(hs)|);
    }
    AccountedKeeps(kvs, |hs|, |ts|);
    KeptIsGenuine(kvs);
    BlobsSize(Blobs(fs, hs), ts);
    HeaderReadsBack(Kept(kvs), ts, g);
    forall k | 0 <= k < |ts| ensures SameTensor(g, |plan.header|, Placed(ts)[k], ts[k], Blobs(fs, hs)[k]) {
      PlacedAt(ts, k);
      DataSizeGrows(ts, k);
      BlobAt(Blobs(fs, hs), ts, plan.header, k);
    }
  }

  /** A tensor that only moved, with its bytes where the header says. */
  predicate SameTensor(g: Bytes, data: nat, moved: Tensor, t: Tensor, blob: Bytes) {
    && moved == t.(offset := moved.offset) && moved.offset % ALIGNMENT == 0
    && data + moved.offset + t.size <= |g| && g[data + moved.offset..data + moved.offset + t.size] == blob
  }
}
