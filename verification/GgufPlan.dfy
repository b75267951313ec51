/** The merge plan (internal/models/gguf_merge.go, `ggufPlan`): which shard sets are accepted, and the header of
    the merged file. */
module GgufPlan {
  import opened Text
  import opened GgufFormat

  function SPLIT_NO(): Bytes { Ascii("split.no") }
  function SPLIT_COUNT(): Bytes { Ascii("split.count") }
  function SPLIT_TENSORS(): Bytes { Ascii("split.tensors.count") }
  function SPLIT_PREFIX(): Bytes { Ascii("split.") }
  function ARCHITECTURE(): Bytes { Ascii("general.architecture") }
  function DEEPSEEK(): Bytes { Ascii("deepseek41") }

  // ----- writing -----

  function StringBytes(s: Bytes): Bytes {
    LE(|s|, 8) + s
  }

  /** The alignment as the merged file states it. */
  function AlignmentRaw(): Bytes {
    StringBytes(GENERAL_ALIGNMENT()) + LE(4, 4) + LE(ALIGNMENT, 4)
  }

  function RawOf(kv: KV): Bytes {
    if kv.key == GENERAL_ALIGNMENT() then AlignmentRaw() else kv.raw
  }

  function ShapeBytes(shape: seq<nat>): (b: Bytes)
    ensures |b| == 8 * |shape|
  {
    if shape == [] then [] else ShapeBytes(shape[..|shape| - 1]) + LE(shape[|shape| - 1], 8)
  }

  function InfoBytes(t: Tensor, offset: nat): Bytes {
    StringBytes(t.name) + LE(|t.shape|, 4) + ShapeBytes(t.shape) + LE(t.kind, 4) + LE(offset, 8)
  }

  function Concat(parts: seq<Bytes>): Bytes {
    if parts == [] then [] else Concat(parts[..|parts| - 1]) + parts[|parts| - 1]
  }

  function Zeros(n: nat): (b: Bytes)
    ensures |b| == n
  {
    seq(n, i => 0)
  }

  /** The room all tensors take, each padded. */
  function DataSize(ts: seq<Tensor>): nat {
    if ts == [] then 0 else DataSize(ts[..|ts| - 1]) + Align(ts[|ts| - 1].size, ALIGNMENT)
  }

  /** The descriptions of the tensors, each at its new offset. */
  function InfosBytes(ts: seq<Tensor>): Bytes {
    if ts == [] then [] else InfosBytes(ts[..|ts| - 1]) + InfoBytes(ts[|ts| - 1], DataSize(ts[..|ts| - 1]))
  }

  function RawHeader(metadata: seq<Bytes>, ts: seq<Tensor>): Bytes {
    Ascii("GGUF") + LE(3, 4) + LE(|ts|, 8) + LE(|metadata|, 8) + Concat(metadata) + InfosBytes(ts)
  }

  function Padded(b: Bytes): (p: Bytes)
    ensures b <= p && |p| == Align(|b|, ALIGNMENT)
  {
    AlignIsNext(|b|, ALIGNMENT);
    b + Zeros(Align(|b|, ALIGNMENT) - |b|)
  }

  // ----- which shards are accepted -----

  /** What the metadata of one shard amounts to. */
  datatype Shard = Shard(split: set<Bytes>, arch: bool, alignment: bool, metadata: seq<Bytes>)

  /** One pair of shard `i` of `count`, which together hold `total` tensors. */
  function Account(s: Shard, kv: KV, i: nat, count: nat, total: nat): Option<Shard> {
    if kv.key == SPLIT_NO() then
      if kv.kind != 2 || kv.number != i then None else Some(s.(split := s.split + {kv.key}))
    else if kv.key == SPLIT_COUNT() then
      if kv.kind != 2 || kv.number != count then None else Some(s.(split := s.split + {kv.key}))
    else if kv.key == SPLIT_TENSORS() then
      if kv.kind != 5 || kv.number != total then None else Some(s.(split := s.split + {kv.key}))
    else if i != 0 || SPLIT_PREFIX() <= kv.key then None
    else Some(Shard(s.split,
                    if kv.key == ARCHITECTURE() then kv.kind == 8 && kv.text == DEEPSEEK() else s.arch,
                    if kv.key == GENERAL_ALIGNMENT() then kv.kind == 4 else s.alignment,
                    s.metadata + [RawOf(kv)]))
  }

  function Accounted(kvs: seq<KV>, i: nat, count: nat, total: nat): Option<Shard> {
    if kvs == [] then Some(Shard({}, false, false, []))
    else match Accounted(kvs[..|kvs| - 1], i, count, total)
      case None => None
      case Some(s) => Account(s, kvs[|kvs| - 1], i, count, total)
  }

  /** Shard `i` is numbered right, and the first one is of the right architecture. */
  predicate Acceptable(h: Header, i: nat, count: nat, total: nat) {
    match Accounted(h.kv, i, count, total)
    case None => false
    case Some(s) => |s.split| == 3 && (i != 0 || (s.arch && s.alignment))
  }

  function AllTensors(hs: seq<Header>): seq<Tensor> {
    if hs == [] then [] else AllTensors(hs[..|hs| - 1]) + hs[|hs| - 1].tensors
  }

  predicate DistinctNames(ts: seq<Tensor>) {
    forall i, j :: 0 <= i < j < |ts| ==> ts[i].name != ts[j].name
  }

  predicate AcceptedSet(hs: seq<Header>) {
    && hs != [] && DistinctNames(AllTensors(hs))
    && forall i :: 0 <= i < |hs| ==> Acceptable(hs[i], i, |hs|, |AllTensors(hs)|)
  }

  /** The metadata that is kept: the first shard's, without the split keys. */
  function Metadata(hs: seq<Header>): seq<Bytes> {
    if hs == [] then []
    else match Accounted(hs[0].kv, 0, |hs|, |AllTensors(hs)|)
      case None => []
      case Some(s) => s.metadata
  }

  datatype Plan = Plan(header: Bytes, total: nat)

  /** `ggufPlan`. */
  function PlanOf(hs: seq<Header>): Option<Plan> {
    if !AcceptedSet(hs) then None
    else
      var header := Padded(RawHeader(Metadata(hs), AllTensors(hs)));
      Some(Plan(header, |header| + DataSize(AllTensors(hs))))
  }

  // ----- the planner -----

  method CountTensors(hs: seq<Header>) returns (total: nat)
    ensures total == |AllTensors(hs)|
  {
    total := 0;
    var i := 0;
    while i < |hs|
      invariant 0 <= i <= |hs| && total == |AllTensors(hs[..i])|
    {
      assert hs[..i + 1][..i] == hs[..i];
      total := total + |hs[i].tensors|;
      i := i + 1;
    }
    assert hs[..i] == hs;
  }

  method AccountShard(h: Header, i: nat, count: nat, total: nat) returns (s: Option<Shard>)
    ensures s == Accounted(h.kv, i, count, total)
  {
    hide Account;
    var sum := Shard({}, false, false, []);
    var k := 0;
    while k < |h.kv|
      invariant 0 <= k <= |h.kv| && Accounted(h.kv[..k], i, count, total) == Some(sum)
    {
      assert h.kv[..k + 1][..k] == h.kv[..k];
      var next := Account(sum, h.kv[k], i, count, total);
      if next == None {
        NeverAgain(h.kv, k + 1, i, count, total);
        return None;
      }
      sum := next.value;
      k := k + 1;
    }
    assert h.kv[..k] == h.kv;
    s := Some(sum);
  }

  /** A bad pair spoils the shard. */
  lemma {:induction false} NeverAgain(kvs: seq<KV>, k: nat, i: nat, count: nat, total: nat)
    requires k <= |kvs| && Accounted(kvs[..k], i, count, total) == None
    ensures Accounted(kvs, i, count, total) == None
  {
    hide Account;
    if k == |kvs| {
      assert kvs[..k] == kvs;
    } else {
      var init := kvs[..|kvs| - 1];
      assert init[..k] == kvs[..k];
      NeverAgain(init, k, i, count, total);
    }
  }

  /** The names of a shard's tensors, none of them seen before. */
  method TakeNames(ts: seq<Tensor>, names: set<Bytes>, ghost before: seq<Tensor>) returns (ok: bool, all: set<Bytes>)
    requires DistinctNames(before) && forall n :: n in names <==> Named(before, n)
    ensures ok <==> DistinctNames(before + ts)
    ensures ok ==> forall n :: n in all <==> Named(before + ts, n)
  {
    all := names;
    var j := 0;
    assert before + ts[..0] == before;
    while j < |ts|
      invariant 0 <= j <= |ts| && DistinctNames(before + ts[..j])
      invariant forall n :: n in all <==> Named(before + ts[..j], n)
    {
      ghost var done := ts[..j];
      ghost var more := before + ts[..j + 1];
      assert more == before + done + [ts[j]];
      if ts[j].name in all {
        ghost var k :| 0 <= k < |before + done| && (before + done)[k].name == ts[j].name;
        assert (before + ts)[k] == (before + done)[k] && (before + ts)[|before| + j] == ts[j];
        return false, all;
      }
      OneMoreName(before + done, ts[j]);
      all := all + {ts[j].name};
      j := j + 1;
    }
    assert ts[..j] == ts;
    ok := true;
  }

  predicate Named(ts: seq<Tensor>, name: Bytes) {
    exists k :: 0 <= k < |ts| && ts[k].name == name
  }

  lemma OneMoreName(ts: seq<Tensor>, t: Tensor)
    requires DistinctNames(ts) && !Named(ts, t.name)
    ensures DistinctNames(ts + [t])
    ensures forall n :: Named(ts + [t], n) <==> Named(ts, n) || n == t.name
  {
    forall n ensures Named(ts + [t], n) <==> Named(ts, n) || n == t.name {
      assert (ts + [t])[|ts|] == t;
      if Named(ts, n) {
        var k :| 0 <= k < |ts| && ts[k].name == n;
        assert (ts + [t])[k].name == n;
      }
    }
  }

  /** One shard's metadata, if the shard is acceptable where it stands. */
  method CheckShard(hs: seq<Header>, i: nat, total: nat) returns (ok: bool, raws: seq<Bytes>)
    requires i < |hs| && total == |AllTensors(hs)|
    ensures ok <==> Acceptable(hs[i], i, |hs|, total)
    ensures ok && i == 0 ==> raws == Metadata(hs)
  {
    hide Accounted, AllTensors;
    var s := AccountShard(hs[i], i, |hs|, total);
    if s == None || |s.value.split| != 3 || (i == 0 && (!s.value.arch || !s.value.alignment)) {
      return false, [];
    }
    ok, raws := true, s.value.metadata;
  }

  /** Every shard in turn: its metadata, then its tensors. */
  method TakeShards(hs: seq<Header>, total: nat) returns (ok: bool, metadata: seq<Bytes>, tensors: seq<Tensor>)
    requires hs != [] && total == |AllTensors(hs)|
    ensures ok <==> AcceptedSet(hs)
    ensures ok ==> metadata == Metadata(hs) && tensors == AllTensors(hs)
  {
    assert DistinctNames([]) && forall n :: !Named([], n);
    hide Acceptable, Metadata, DistinctNames, Named;
    var names: set<Bytes> := {};
    metadata, tensors := [], [];
    assert AllTensors(hs[..0]) == [];
    var i := 0;
    while i < |hs|
      invariant 0 <= i <= |hs| && tensors == AllTensors(hs[..i]) && DistinctNames(tensors)
      invariant forall n :: n in names <==> Named(tensors, n)
      invariant forall k :: 0 <= k < i ==> Acceptable(hs[k], k, |hs|, total)
      invariant i > 0 ==> metadata == Metadata(hs)
    {
      var raws;
      ok, raws := CheckShard(hs, i, total);
      if !ok {
        return false, metadata, tensors;
      }
      if i == 0 {
        metadata := raws;
      }
      assert hs[..i + 1][..i] == hs[..i];
      ok, names := TakeNames(hs[i].tensors, names, tensors);
      if !ok {
        TensorsPrefix(hs, i + 1);
        NamesOfPrefix(tensors + hs[i].tensors, AllTensors(hs));
        return false, metadata, tensors;
      }
      tensors := tensors + hs[i].tensors;
      i := i + 1;
    }
    assert hs[..i] == hs;
    ok := true;
  }

  lemma {:induction false} TensorsPrefix(hs: seq<Header>, n: nat)
    requires n <= |hs|
    ensures AllTensors(hs[..n]) <= AllTensors(hs)
  {
    if n == |hs| {
      assert hs[..n] == hs;
    } else {
      assert hs[..|hs| - 1][..n] == hs[..n];
      TensorsPrefix(hs[..|hs| - 1], n);
    }
  }

  lemma NamesOfPrefix(a: seq<Tensor>, b: seq<Tensor>)
    requires a <= b && !DistinctNames(a)
    ensures !DistinctNames(b)
  {
    var i, j :| 0 <= i < j < |a| && a[i].name == a[j].name;
    assert b[i] == a[i] && b[j] == a[j];
  }

  method WriteHeader(metadata: seq<Bytes>, tensors: seq<Tensor>) returns (b: Bytes, offset: nat)
    ensures b == Padded(RawHeader(metadata, tensors)) && offset == DataSize(tensors)
  {
    hide LE, InfoBytes;
    b := Ascii("GGUF") + LE(3, 4) + LE(|tensors|, 8) + LE(|metadata|, 8);
    ghost var fixed := b;
    var i := 0;
    while i < |metadata|
      invariant 0 <= i <= |metadata| && b == fixed + Concat(metadata[..i])
    {
      assert metadata[..i + 1][..i] == metadata[..i];
      b := b + metadata[i];
      i := i + 1;
    }
    assert metadata[..i] == metadata;
    ghost var front := b;
    offset := 0;
    var j := 0;
    while j < |tensors|
      invariant 0 <= j <= |tensors| && b == front + InfosBytes(tensors[..j]) && offset == DataSize(tensors[..j])
    {
      assert tensors[..j + 1][..j] == tensors[..j];
      b := b + InfoBytes(tensors[j], offset);
      offset := offset + Align(tensors[j].size, ALIGNMENT);
      j := j + 1;
    }
    assert tensors[..j] == tensors;
    AlignIsNext(|b|, ALIGNMENT);
    b := b + Zeros(Align(|b|, ALIGNMENT) - |b|);
  }

  method MakePlan(hs: seq<Header>) returns (p: Option<Plan>)
    ensures p == PlanOf(hs)
  {
    hide AcceptedSet, Metadata, AllTensors, DataSize, Padded, RawHeader;
    if hs == [] {
      EmptySet();
      return None;
    }
    var total := CountTensors(hs);
    var ok, metadata, tensors := TakeShards(hs, total);
    if !ok {
      return None;
    }
    var header, offset := WriteHeader(metadata, tensors);
    p := Some(Plan(header, |header| + offset));
  }

  lemma EmptySet()
    ensures !AcceptedSet([])
  {}
}
