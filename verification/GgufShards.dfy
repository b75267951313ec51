/** Which shard sets are merged (internal/models/gguf_merge.go:214-270): numbered from zero in order, agreeing on their
    number and on the tensors they hold together. */
module GgufShards {
  import opened Text
  import opened GgufFormat
  import opened GgufPlan
  import opened GgufReadBack

  predicate States(kvs: seq<KV>, key: Bytes, kind: nat, number: nat) {
    exists k :: 0 <= k < |kvs| && kvs[k].key == key && kvs[k].kind == kind && kvs[k].number == number
  }

  predicate IsArchitecture(kv: KV) {
    kv.key == ARCHITECTURE() && kv.kind == 8 && kv.text == DEEPSEEK()
  }

  predicate IsAlignmentKV(kv: KV) {
    kv.key == GENERAL_ALIGNMENT() && kv.kind == 4
  }

  /** Shard `i` of `count` says so, and says how many tensors the shards hold together. All other metadata is in the
      first shard, which names the architecture and an alignment. */
  predicate Numbered(kvs: seq<KV>, i: nat, count: nat, total: nat) {
    && States(kvs, SPLIT_NO(), 2, i) && States(kvs, SPLIT_COUNT(), 2, count) && States(kvs, SPLIT_TENSORS(), 5, total)
    && (forall k :: 0 <= k < |kvs| ==> IsSplitKey(kvs[k].key) || (i == 0 && !(SPLIT_PREFIX() <= kvs[k].key)))
    && (i == 0 ==> HasArchitecture(kvs) && HasAlignment(kvs))
  }

  /** The pair says nothing wrong about the shard. */
  predicate Agrees(kv: KV, i: nat, count: nat, total: nat) {
    if kv.key == SPLIT_NO() then kv.kind == 2 && kv.number == i
    else if kv.key == SPLIT_COUNT() then kv.kind == 2 && kv.number == count
    else if kv.key == SPLIT_TENSORS() then kv.kind == 5 && kv.number == total
    else i == 0 && !(SPLIT_PREFIX() <= kv.key)
  }

  lemma OneAccounted(s: GgufPlan.Shard, kv: KV, i: nat, count: nat, total: nat)
    ensures Account(s, kv, i, count, total).Some? <==> Agrees(kv, i, count, total)
    ensures Account(s, kv, i, count, total).Some? ==>
              var t := Account(s, kv, i, count, total).value;
              && t.split == s.split + (if IsSplitKey(kv.key) then {kv.key} else {})
              && t.arch == (if kv.key == ARCHITECTURE() then IsArchitecture(kv) else s.arch)
              && t.alignment == (if kv.key == GENERAL_ALIGNMENT() then IsAlignmentKV(kv) else s.alignment)
  {
    hide SPLIT_NO, SPLIT_COUNT, SPLIT_TENSORS, SPLIT_PREFIX, GENERAL_ALIGNMENT, ARCHITECTURE, DEEPSEEK, AlignmentRaw;
    KeysApart();
  }

  predicate HasArchitecture(kvs: seq<KV>) {
    exists k :: 0 <= k < |kvs| && IsArchitecture(kvs[k])
  }

  predicate HasAlignment(kvs: seq<KV>) {
    exists k :: 0 <= k < |kvs| && IsAlignmentKV(kvs[k])
  }

  predicate AllAgree(kvs: seq<KV>, i: nat, count: nat, total: nat) {
    forall k :: 0 <= k < |kvs| ==> Agrees(kvs[k], i, count, total)
  }

  lemma OneMoreStated(kvs: seq<KV>, kv: KV, i: nat, count: nat, total: nat)
    requires !HasKey(kvs, kv.key)
    ensures AllAgree(kvs + [kv], i, count, total) <==> AllAgree(kvs, i, count, total) && Agrees(kv, i, count, total)
    ensures HasArchitecture(kvs + [kv]) ==
            if kv.key == ARCHITECTURE() then IsArchitecture(kv) else HasArchitecture(kvs)
    ensures HasAlignment(kvs + [kv]) ==
            if kv.key == GENERAL_ALIGNMENT() then IsAlignmentKV(kv) else HasAlignment(kvs)
    ensures forall key :: HasKey(kvs + [kv], key) <==> HasKey(kvs, key) || kv.key == key
  {
    hide Agrees, GENERAL_ALIGNMENT, ARCHITECTURE, DEEPSEEK;
    var more := kvs + [kv];
    assert more[|kvs|] == kv && forall k :: 0 <= k < |kvs| ==> more[k] == kvs[k];
    forall key ensures HasKey(more, key) <==> HasKey(kvs, key) || kv.key == key {
      KeyStays(kvs, kv, key);
    }
  }

  lemma {:induction false} AccountedIs(kvs: seq<KV>, i: nat, count: nat, total: nat)
    requires DistinctKeys(kvs)
    ensures Accounted(kvs, i, count, total).Some? <==> AllAgree(kvs, i, count, total)
    ensures Accounted(kvs, i, count, total).Some? ==>
              var s := Accounted(kvs, i, count, total).value;
              && (forall key :: key in s.split <==> IsSplitKey(key) && HasKey(kvs, key))
              && s.arch == HasArchitecture(kvs) && s.alignment == HasAlignment(kvs)
  {
    hide Account, Agrees, AllAgree, HasArchitecture, HasAlignment, IsSplitKey, IsArchitecture, IsAlignmentKV,
         ARCHITECTURE, GENERAL_ALIGNMENT;
    if kvs == [] {
      NothingStated(i, count, total);
    } else {
      var init, kv := kvs[..|kvs| - 1], kvs[|kvs| - 1];
      assert forall k :: 0 <= k < |init| ==> init[k] == kvs[k];
      assert kvs == init + [kv] && !HasKey(init, kv.key);
      AccountedIs(init, i, count, total);
      OneMoreStated(init, kv, i, count, total);
      if Accounted(init, i, count, total).Some? {
        OneAccounted(Accounted(init, i, count, total).value, kv, i, count, total);
      }
    }
  }

  lemma NothingStated(i: nat, count: nat, total: nat)
    ensures AllAgree([], i, count, total) && !HasArchitecture([]) && !HasAlignment([])
  {}

  lemma KeysApart()
    ensures !IsSplitKey(ARCHITECTURE()) && !IsSplitKey(GENERAL_ALIGNMENT()) && ARCHITECTURE() != GENERAL_ALIGNMENT()
    ensures SPLIT_NO() != SPLIT_COUNT() && SPLIT_NO() != SPLIT_TENSORS() && SPLIT_COUNT() != SPLIT_TENSORS()
  {
    assert |ARCHITECTURE()| == 20 && |GENERAL_ALIGNMENT()| == 17;
    assert |SPLIT_NO()| == 8 && |SPLIT_COUNT()| == 11 && |SPLIT_TENSORS()| == 19;
  }

  lemma ThreeOfThree(s: set<Bytes>, a: Bytes, b: Bytes, c: Bytes)
    requires s <= {a, b, c} && a != b && a != c && b != c
    ensures |s| == 3 <==> a in s && b in s && c in s
  {
    var all := {a, b, c};
    assert |all| == 3;
    assert |all - s| == |all| - |s|;
    if a in s && b in s && c in s {
      assert s == all;
    } else {
      var x :| x in all - s;
    }
  }

  /** A shard is acceptable exactly when it is numbered right. */
  lemma AcceptableWhenNumbered(h: Header, i: nat, count: nat, total: nat)
    requires DistinctKeys(h.kv)
    ensures Acceptable(h, i, count, total) <==> Numbered(h.kv, i, count, total)
  {
    hide Accounted, SPLIT_NO, SPLIT_COUNT, SPLIT_TENSORS, SPLIT_PREFIX, GENERAL_ALIGNMENT, ARCHITECTURE, DEEPSEEK;
    AccountedIs(h.kv, i, count, total);
    KeysApart();
    var s := Accounted(h.kv, i, count, total);
    if s.Some? {
      ThreeOfThree(s.value.split, SPLIT_NO(), SPLIT_COUNT(), SPLIT_TENSORS());
    }
  }

  /** A set is merged exactly when every shard in turn is numbered right and no two tensors share a name. */
  lemma PlannedWhenNumbered(hs: seq<Header>)
    requires forall i :: 0 <= i < |hs| ==> DistinctKeys(hs[i].kv)
    ensures PlanOf(hs).Some? <==>
            && hs != [] && DistinctNames(AllTensors(hs))
            && forall i :: 0 <= i < |hs| ==> Numbered(hs[i].kv, i, |hs|, |AllTensors(hs)|)
  {
    hide Acceptable, Numbered, DistinctKeys, DistinctNames, AllTensors, RawHeader, Padded;
    forall i | 0 <= i < |hs|
      ensures Acceptable(hs[i], i, |hs|, |AllTensors(hs)|) <==> Numbered(hs[i].kv, i, |hs|, |AllTensors(hs)|)
    {
      AcceptableWhenNumbered(hs[i], i, |hs|, |AllTensors(hs)|);
    }
  }
}
