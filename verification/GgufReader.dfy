/** The shard reader (internal/models/gguf_merge.go, `ggufReader` and `readGGUF`): it accepts exactly the headers
    of the format, and its sticky error never lets a partial one through. */
module GgufReader {
  import opened Text
  import opened GgufFormat

  /** A position in a file, and whether a read has failed. */
  class Reader {
    const file: Bytes
    var pos: nat
    var err: bool

    constructor (file: Bytes)
      ensures this.file == file && pos == 0 && !err
    {
      this.file, pos, err := file, 0, false;
    }

    /** `read`: what it returns on an error is not to be used. */
    method Read(n: nat) returns (b: Bytes)
      modifies this
      ensures old(err) ==> err && pos == old(pos)
      ensures !old(err) ==> err == !Fits(file, old(pos), n)
      ensures !err ==> pos == old(pos) + n && b == file[old(pos)..pos]
    {
      if err {
        return [];
      }
      if n > HEADER_LIMIT || pos + n > HEADER_LIMIT {
        err := true;
        return [];
      }
      if pos + n > |file| {
        err := true;
        pos := pos + n;
        b := *;
        return;
      }
      b := file[pos..pos + n];
      pos := pos + n;
    }

    method Num(k: nat) returns (v: nat)
      modifies this
      ensures old(err) ==> err && pos == old(pos)
      ensures !old(err) ==> (err <==> Number(file, old(pos), k) == None)
      ensures !err ==> pos == old(pos) + k && Number(file, old(pos), k) == Some(v)
    {
      var b := Read(k);
      v := if |b| == k then FromLE(b) else 0;
    }

    method Str() returns (s: Bytes)
      modifies this
      ensures old(err) ==> err && pos == old(pos)
      ensures !old(err) ==> (err <==> StringEnd(file, old(pos)) == None)
      ensures !err ==> StringEnd(file, old(pos)) == Some(pos) && old(pos) + 8 <= pos && s == file[old(pos) + 8..pos]
    {
      hide FromLE;
      var n := Num(8);
      s := Read(n);
    }

    /** `value`: skips a metadata value. */
    method Value(kind: nat, depth: nat)
      modifies this
      ensures old(err) ==> err && pos == old(pos)
      ensures !old(err) ==> (err <==> ValueEnd(file, old(pos), kind, depth) == None)
      ensures !err ==> ValueEnd(file, old(pos), kind, depth) == Some(pos)
      decreases if depth <= 4 then 5 - depth else 0
    {
      hide FromLE, ValuesEnd, StringEnd;
      if err {
        return;
      }
      if depth > 4 {
        err := true;
        return;
      }
      var size := ScalarSize(kind);
      if size.Some? {
        var _ := Read(size.value);
      } else if kind == 8 {
        var _ := Str();
      } else if kind == 9 {
        var of := Num(4);
        var n := Num(8);
        if n > HEADER_LIMIT {
          err := true;
          return;
        }
        Values(of, depth, n);
      } else {
        err := true;
      }
    }

    /** The elements of an array. */
    method Values(of: nat, depth: nat, n: nat)
      requires depth <= 4 && (err || (pos <= |file| && pos <= HEADER_LIMIT))
      modifies this
      ensures old(err) ==> err && pos == old(pos)
      ensures !old(err) ==> (err <==> ValuesEnd(file, old(pos), of, depth + 1, n) == None)
      ensures !err ==> ValuesEnd(file, old(pos), of, depth + 1, n) == Some(pos)
      decreases 5 - depth, 0
    {
      hide ValueEnd;
      var i := 0;
      while i < n && !err
        invariant 0 <= i <= n && (old(err) ==> err && pos == old(pos))
        invariant !err ==> pos <= |file| && pos <= HEADER_LIMIT
        invariant !old(err) && !err ==>
                  ValuesEnd(file, old(pos), of, depth + 1, n) == ValuesEnd(file, pos, of, depth + 1, n - i)
        invariant !old(err) && err ==> ValuesEnd(file, old(pos), of, depth + 1, n) == None
      {
        Value(of, depth + 1);
        i := i + 1;
      }
    }

    /** One key-value pair, its raw bytes read again. */
    method Pair() returns (kv: KV, start: nat)
      modifies this
      ensures old(err) ==> err
      ensures !old(err) ==> (err <==> KVEnd(file, old(pos)) == None)
      ensures !err ==> KVEnd(file, old(pos)) == Some(pos) && kv == KVAt(file, old(pos))
    {
      hide FromLE, ValueEnd, StringEnd, NumberOf, TextOf;
      start := pos;
      var key := Str();
      var kind := Num(4);
      var vstart := pos;
      Value(kind, 0);
      if err {
        kv := KV(key, kind, [], 0, []);
        return;
      }
      var data := file[vstart..pos];
      kv := KV(key, kind, file[start..pos], NumberOf(kind, data), TextOf(kind, data));
    }

    /** The metadata: keys distinct, the alignment a 32-bit number. */
    method Pairs(n: nat) returns (ok: bool, kvs: seq<KV>, alignment: nat)
      modifies this
      ensures old(err) && n > 0 ==> !ok
      ensures !ok || err ==> old(err) || ReadKVs(file, old(pos), n, []) == None
      ensures ok && !err ==>
              !old(err) && ReadKVs(file, old(pos), n, []) == Some(KVs(kvs, pos)) && alignment == AlignmentOf(kvs)
    {
      hide KVEnd, KVAt, GENERAL_ALIGNMENT;
      var seen: set<Bytes> := {};
      kvs, alignment := [], 32;
      var i := 0;
      while i < n
        invariant 0 <= i <= n && (old(err) ==> err && i == 0) && (i > 0 ==> !err)
        invariant err ==> old(err)
        invariant forall k :: k in seen <==> HasKey(kvs, k)
        invariant !old(err) ==> ReadKVs(file, old(pos), n, []) == ReadKVs(file, pos, n - i, kvs)
        invariant alignment == AlignmentOf(kvs)
      {
        var at := pos;
        ghost var failed := err;
        var kv, _ := Pair();
        if err || kv.key in seen || (kv.key == GENERAL_ALIGNMENT() && kv.kind != 4) {
          return false, kvs, alignment;
        }
        if kv.key == GENERAL_ALIGNMENT() {
          alignment := kv.number;
        }
        OneMoreKey(kvs, kv);
        seen := seen + {kv.key};
        kvs := kvs + [kv];
        i := i + 1;
      }
      ok := true;
    }

    /** The dimensions of a tensor and the number of its elements. */
    method Shape(rank: nat) returns (ok: bool, shape: seq<nat>, count: nat)
      modifies this
      ensures count > 0 && (old(err) ==> err)
      ensures !old(err) && (!ok || err) ==> ReadShape(file, old(pos), rank, 1, []) == None
      ensures ok && !err ==>
              !old(err) && ReadShape(file, old(pos), rank, 1, []) == Some((shape, count)) && pos == old(pos) + 8 * rank
    {
      hide Number;
      shape, count := [], 1;
      var j := 0;
      while j < rank
        invariant 0 <= j <= rank && count > 0 && (old(err) ==> err)
        invariant err ==> old(err) || ReadShape(file, old(pos), rank, 1, []) == None
        invariant !err ==>
                  pos == old(pos) + 8 * j &&
                      ReadShape(file, old(pos), rank, 1, []) == ReadShape(file, pos, rank - j, count, shape)
      {
        var n := Num(8);
        if n == 0 || n > MAX_COUNT / count {
          return false, shape, count;
        }
        count := count * n;
        shape := shape + [n];
        j := j + 1;
      }
      ok := true;
    }

    /** One tensor description. */
    method Describe() returns (ok: bool, t: Tensor)
      modifies this
      ensures old(err) ==> err
      ensures !old(err) && (!ok || err) ==> TensorAt(file, old(pos)) == None
      ensures ok && !err ==> !old(err) && TensorAt(file, old(pos)) == Some(Info(t, pos))
    {
      hide Number, StringEnd, ReadShape, SizeOf;
      t := Tensor([], [], 0, 0, 0);
      var name := Str();
      var rank := Num(4);
      if rank < 1 || rank > 4 {
        return false, t;
      }
      var shape, count;
      ok, shape, count := Shape(rank);
      if !ok {
        return;
      }
      var kind := Num(4);
      var offset := Num(8);
      var size := SizeOf(kind, shape, count);
      if size == None {
        return false, t;
      }
      t := Tensor(name, shape, kind, offset, size.value);
    }
  }

  lemma OneMoreKey(kvs: seq<KV>, kv: KV)
    ensures forall k :: HasKey(kvs + [kv], k) <==> HasKey(kvs, k) || k == kv.key
    ensures AlignmentOf(kvs + [kv]) == if kv.key == GENERAL_ALIGNMENT() then kv.number else AlignmentOf(kvs)
  {
    hide GENERAL_ALIGNMENT;
    assert (kvs + [kv])[..|kvs|] == kvs;
    forall k ensures HasKey(kvs + [kv], k) <==> HasKey(kvs, k) || k == kv.key {
      if HasKey(kvs, k) {
        var i :| 0 <= i < |kvs| && kvs[i].key == k;
        assert (kvs + [kv])[i].key == k;
      }
      assert (kvs + [kv])[|kvs|] == kv;
    }
  }

  /** `readGGUF`. */
  method ReadGguf(file: Bytes) returns (h: Option<Header>)
    ensures h == ReadHeader(file)
  {
    hide FromLE, ReadKVs, ReadTensors, AlignmentOf, IsAlignment, Align;
    var r := new Reader(file);
    var magic := r.Read(4);
    if r.err || magic != Ascii("GGUF") {
      return None;
    }
    var version := r.Num(4);
    if version != 3 {
      return None;
    }
    var nt := r.Num(8);
    var nk := r.Num(8);
    if nt > MAX_ITEMS || nk > MAX_ITEMS {
      return None;
    }
    var ok, kvs, alignment := r.Pairs(nk);
    if !ok {
      return None;
    }
    if !IsAlignment(alignment) {
      return None;
    }
    var tensors, offset;
    ok, tensors, offset := ReadLayout(r, nt, alignment);
    if !ok || r.err {
      return None;
    }
    var data := Align(r.pos, alignment);
    if data + offset != |file| {
      return None;
    }
    h := Some(Header(kvs, tensors, data));
  }

  /** The tensors, each in its place behind the one before. */
  method ReadLayout(r: Reader, n: nat, alignment: nat) returns (ok: bool, tensors: seq<Tensor>, offset: nat)
    requires alignment > 0
    modifies r
    ensures old(r.err) ==> !ok || r.err
    ensures !old(r.err) && (!ok || r.err) ==> ReadTensors(r.file, old(r.pos), n, alignment, 0, []) == None
    ensures ok && !r.err ==>
            ReadTensors(r.file, old(r.pos), n, alignment, 0, []) == Some(Tensors(tensors, r.pos, offset))
  {
    hide TensorAt, Align;
    tensors, offset := [], 0;
    var i := 0;
    while i < n
      invariant 0 <= i <= n && (old(r.err) ==> r.err)
      invariant r.err && !old(r.err) ==> ReadTensors(r.file, old(r.pos), n, alignment, 0, []) == None
      invariant !r.err ==>
        ReadTensors(r.file, old(r.pos), n, alignment, 0, []) ==
            ReadTensors(r.file, r.pos, n - i, alignment, offset, tensors)
    {
      var t;
      ok, t := r.Describe();
      if !ok || t.offset != offset || t.size > |r.file| || offset > |r.file| - t.size {
        return false, tensors, offset;
      }
      offset := offset + Align(t.size, alignment);
      tensors := tensors + [t];
      i := i + 1;
    }
    ok := true;
  }
}
