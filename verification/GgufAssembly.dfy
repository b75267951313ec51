/** The resumable writer (internal/models/gguf_merge.go, `mergeGGUF` and its `appendData`): whatever prefix of the
    image an interruption leaves, a rerun completes the same image; any other file is refused untouched. */
module GgufAssembly {
  import opened Text
  import opened GgufFormat
  import opened GgufReader
  import opened GgufPlan
  import opened GgufReadBack
  import opened GgufMerge

  const CHUNK := 0x100_0000

  datatype Outcome = Done | Cancelled | Differs | Failed | BadShard | BadPlan | WrongSize | TooLong

  /** The pending file, opened for reading and writing. */
  class PendingFile {
    var contents: Bytes
    var pos: nat

    // whether a read, write or seek, of this file or of a shard, has failed, and whether the caller has cancelled
    ghost var failed: bool
    ghost var cancelled: bool

    constructor (contents: Bytes)
      ensures this.contents == contents && pos == 0
    {
      this.contents, pos := contents, 0;
    }

    /** Whether a call to the system succeeds. */
    method Works() returns (ok: bool)
      modifies this`failed
      ensures failed == (old(failed) || !ok)
    {
      ok := *;
      failed := failed || !ok;
    }

    /** Whether the caller has cancelled by now. */
    method Cancelled() returns (c: bool)
      modifies this`cancelled
      ensures cancelled == (old(cancelled) || c)
    {
      c := *;
      cancelled := cancelled || c;
    }

    /** `io.ReadFull`. */
    method ReadFull(n: nat) returns (ok: bool, data: Bytes)
      requires pos + n <= |contents|
      modifies this`pos, this`failed
      ensures ok ==> data == contents[old(pos)..old(pos) + n] && pos == old(pos) + n
      ensures failed == (old(failed) || !ok)
    {
      ok := Works();
      data := [];
      if ok {
        data := contents[pos..pos + n];
        pos := pos + n;
      }
    }

    /** A write that fails may have written any part of the data. */
    method Write(data: Bytes) returns (ok: bool)
      requires pos <= |contents|
      modifies this
      ensures exists n: nat ::
              n <= |data| && (ok ==> n == |data|) && contents == Overwritten(old(contents), old(pos), data[..n]) &&
                  pos == old(pos) + n
      ensures failed == (old(failed) || !ok) && cancelled == old(cancelled)
    {
      var n: int := *;
      if n < 0 || n > |data| {
        n := |data|;
      }
      ok := n == |data|;
      failed := failed || !ok;
      contents := Overwritten(contents, pos, data[..n]);
      pos := pos + n;
    }
  }

  function Overwritten(f: Bytes, pos: nat, data: Bytes): Bytes
    requires pos <= |f|
  {
    f[..pos] + data + if pos + |data| <= |f| then f[pos + |data|..] else []
  }

  /** The file after the pieces up to `pos` have been dealt with: as it was while they only repeat it, else as far
      as the image has been written. */
  predicate At(file: Bytes, start: Bytes, image: Bytes, pos: nat) {
    pos <= |image| && (if pos <= |start| then file == start && start[..pos] == image[..pos]
        else start <= image && file == image[..pos])
  }

  /** What an interruption can leave: the file as it was, or a longer beginning of the image. */
  predicate Left(file: Bytes, start: Bytes, image: Bytes) {
    file == start || (start <= image && start <= file <= image)
  }

  /** An error only where a call to the system failed, and a cancellation only where the caller cancelled. */
  ghost predicate Excused(dst: PendingFile, failed: bool, cancelled: bool, r: Outcome)
    reads dst
  {
    dst.failed == (failed || r == Failed) && dst.cancelled == (cancelled || r == Cancelled)
  }

  class Assembler {
    const dst: PendingFile
    const completed: nat
    var pos: nat

    constructor (dst: PendingFile, completed: nat)
      ensures this.dst == dst && this.completed == completed && pos == 0
    {
      this.dst, this.completed, pos := dst, completed, 0;
    }

    ghost predicate Ready(start: Bytes, image: Bytes)
      reads this, dst
    {
      completed == |start| && dst.pos == pos && At(dst.contents, start, image, pos)
    }

    /** `appendData`: what the file already holds is compared, the rest is written. */
    method Append(data: Bytes, ghost start: Bytes, ghost image: Bytes) returns (r: Outcome)
      requires Ready(start, image) && pos + |data| <= |image| && image[pos..pos + |data|] == data
      modifies this, dst
      ensures r == Done ==> Ready(start, image) && pos == old(pos) + |data|
      ensures r == Differs ==> dst.contents == start && !(start <= image)
      ensures Left(dst.contents, start, image)
      ensures r == Done || r == Cancelled || r == Differs || r == Failed
      ensures Excused(dst, old(dst.failed), old(dst.cancelled), r)
    {
      hide Left, Overwritten;
      AtLeft(dst.contents, start, image, pos);
      var cancelled := dst.Cancelled();
      if cancelled {
        return Cancelled;
      }
      var overlap := if completed <= pos then 0 else if completed - pos < |data| then completed - pos else |data|;
      FrontOf(image, pos, data, overlap);
      if overlap > 0 {
        r := Compare(data, overlap, start, image);
        if r != Done {
          return;
        }
      }
      r := WriteRest(data[overlap..], start, image);
      if r == Done {
        pos := pos + |data|;
      }
    }

    /** What the file already holds of the data is read and compared. */
    method Compare(data: Bytes, overlap: nat, ghost start: Bytes, ghost image: Bytes) returns (r: Outcome)
      requires Ready(start, image) && 0 < overlap <= |data| && pos + overlap <= |start| && pos + overlap <= |image|
      requires image[pos..pos + overlap] == data[..overlap]
      modifies dst`pos, dst`failed
      ensures r == Done || r == Differs || r == Failed
      ensures Excused(dst, old(dst.failed), dst.cancelled, r)
      ensures r == Done ==> dst.pos == pos + overlap && At(dst.contents, start, image, dst.pos)
      ensures r == Differs ==> dst.contents == start && !(start <= image)
    {
      var ok, have := dst.ReadFull(overlap);
      if !ok {
        return Failed;
      }
      // Equal so far, the next bytes tell whether they stay equal.
      assert
        && (start[pos..pos + overlap] == image[pos..pos + overlap] ==> start[..pos + overlap] == image[..pos + overlap])
        && (start <= image ==> start[pos..pos + overlap] == image[pos..pos + overlap]) by {
        assert start[..pos + overlap] == start[..pos] + start[pos..pos + overlap];
        assert image[..pos + overlap] == image[..pos] + image[pos..pos + overlap];
        if start <= image {
          assert start == image[..|start|];
        }
      }
      r := if have == data[..overlap] then Done else Differs;
    }

    /** The bytes the file does not hold yet. */
    method WriteRest(rest: Bytes, ghost start: Bytes, ghost image: Bytes) returns (r: Outcome)
      requires completed == |start| && At(dst.contents, start, image, dst.pos)
      requires dst.pos + |rest| <= |image| && image[dst.pos..dst.pos + |rest|] == rest &&
               (rest != [] ==> dst.pos >= |start|)
      modifies dst
      ensures r == Done || r == Failed
      ensures Excused(dst, old(dst.failed), old(dst.cancelled), r)
      ensures r == Done ==> At(dst.contents, start, image, dst.pos) && dst.pos == old(dst.pos) + |rest|
      ensures Left(dst.contents, start, image)
    {
      ghost var at, file := dst.pos, dst.contents;
      AtLength(file, start, image, at);
      var ok := dst.Write(rest);
      ghost var n: nat :| n <= |rest| && (ok ==> n == |rest|) && dst.contents == Overwritten(file, at,
              rest[..n]) && dst.pos == at + n;
      Extends(file, start, image, at, rest, n);
      AtLeft(dst.contents, start, image, at + n);
      r := if ok then Done else Failed;
    }
  }

  lemma AtLeft(file: Bytes, start: Bytes, image: Bytes, pos: nat)
    ensures At(file, start, image, pos) ==> Left(file, start, image)
  {
    if At(file, start, image, pos) && pos > |start| {
      assert start == image[..|start|] == file[..|start|];
    }
  }

  lemma AtLength(file: Bytes, start: Bytes, image: Bytes, pos: nat)
    requires At(file, start, image, pos)
    ensures pos <= |file|
  {}

  lemma FrontOf(image: Bytes, pos: nat, data: Bytes, n: nat)
    requires pos + |data| <= |image| && image[pos..pos + |data|] == data && n <= |data|
    ensures image[pos..pos + n] == data[..n] && image[pos + n..pos + |data|] == data[n..]
  {
    Slice(image, pos, |data|, 0, n);
    Slice(image, pos, |data|, n, |data| - n);
    assert data[0..0 + n] == data[..n] && data[n..n + (|data| - n)] == data[n..];
  }

  /** Writing at the end of what is there takes the file a step along the image. */
  lemma Extends(file: Bytes, start: Bytes, image: Bytes, pos: nat, rest: Bytes, n: nat)
    requires At(file, start, image, pos) && pos + |rest| <= |image| && image[pos..pos + |rest|] == rest && n <= |rest|
    requires rest != [] ==> pos >= |start|
    ensures pos <= |file| && At(Overwritten(file, pos, rest[..n]), start, image, pos + n)
  {
    AtLength(file, start, image, pos);
    if n == 0 {
      assert Overwritten(file, pos, rest[..0]) == file;
    } else {
      assert pos == |start| ==> start[..pos] == start;
      assert file == image[..pos];
      assert image[..pos + n] == image[..pos] + image[pos..pos + n];
      assert rest[..n] == image[pos..pos + n];
      assert Overwritten(file, pos, rest[..n]) == image[..pos + n];
      assert start <= image;
    }
  }

  // ----- copying the tensors -----

  /** What has been copied once tensor `k` of all is next. */
  function Upto(header: Bytes, blobs: seq<Bytes>, k: nat): Bytes {
    header + Concat(if k <= |blobs| then PaddedBlobs(blobs)[..k] else PaddedBlobs(blobs))
  }

  lemma UptoSteps(header: Bytes, blobs: seq<Bytes>, k: nat)
    requires k < |blobs|
    ensures Upto(header, blobs, k + 1) == Upto(header, blobs, k) + PaddedBlob(blobs[k])
    ensures Upto(header, blobs, k + 1) <= Upto(header, blobs, |blobs|)
  {
    hide PaddedBlob, Concat;
    var p := PaddedBlobs(blobs);
    ConcatPrefix(p, k);
    assert p[..|blobs|] == p;
    assert header + Concat(p[..k + 1]) == header + Concat(p[..k]) + p[k];
  }

  /** One tensor: its bytes in chunks, then the padding. */
  method CopyTensor(a: Assembler, f: Bytes, at: nat, size: nat, ghost start: Bytes,
          ghost image: Bytes) returns (r: Outcome)
    requires a.Ready(start, image) && at + size <= |f|
    requires a.pos + Align(size, ALIGNMENT) <= |image| &&
             image[a.pos..a.pos + Align(size, ALIGNMENT)] == PaddedBlob(f[at..at + size])
    modifies a, a.dst
    ensures r == Done ==> a.Ready(start, image) && a.pos == old(a.pos) + Align(size, ALIGNMENT)
    ensures r == Differs ==> a.dst.contents == start && !(start <= image)
    ensures Left(a.dst.contents, start, image)
    ensures r == Done || r == Cancelled || r == Differs || r == Failed
    ensures Excused(a.dst, old(a.dst.failed), old(a.dst.cancelled), r)
  {
    hide Align, Zeros, PaddedBlob, At;
    ghost var from := a.pos;
    AlignIsNext(size, ALIGNMENT);
    AtLeft(a.dst.contents, start, image, a.pos);
    ghost var padded := PaddedBlob(f[at..at + size]);
    PaddedIs(f[at..at + size]);
    var left := size;
    while left > 0
      invariant 0 <= left <= size && a.Ready(start, image) && a.pos == from + size - left
      invariant Left(a.dst.contents, start, image)
      invariant Excused(a.dst, old(a.dst.failed), old(a.dst.cancelled), Done)
    {
      var n := if left < CHUNK then left else CHUNK;
      var readable := a.dst.Works();
      if !readable {
        return Failed;
      }
      var done := size - left;
      ChunkOf(image, from, padded, f, at, size, done, n);
      r := a.Append(f[at + done..at + done + n], start, image);
      if r != Done {
        return;
      }
      left := left - n;
    }
    PaddingOf(image, from, padded, size);
    r := a.Append(Zeros(Align(size, ALIGNMENT) - size), start, image);
  }

  lemma ChunkOf(image: Bytes, from: nat, padded: Bytes, f: Bytes, at: nat, size: nat, done: nat, n: nat)
    requires from + |padded| <= |image| && image[from..from + |padded|] == padded && at + size <= |f|
    requires size <= |padded| && padded[..size] == f[at..at + size] && done + n <= size
    ensures image[from + done..from + done + n] == f[at + done..at + done + n]
  {
    Slice(image, from, |padded|, done, n);
    assert padded[done..done + n] == padded[..size][done..done + n];
    Slice(f, at, size, done, n);
  }

  lemma PaddedIs(b: Bytes)
    ensures PaddedBlob(b) == b + Zeros(|PaddedBlob(b)| - |b|) && |PaddedBlob(b)| == Align(|b|, ALIGNMENT)
  {}

  lemma PaddingOf(image: Bytes, from: nat, padded: Bytes, size: nat)
    requires from + |padded| <= |image| && image[from..from + |padded|] == padded && size <= |padded|
    ensures image[from + size..from + |padded|] == padded[size..]
  {
    Slice(image, from, |padded|, size, |padded| - size);
    assert padded[size..|padded|] == padded[size..];
  }

  /** One shard's tensors, the `k`-th of all being its first. */
  method CopyShard(a: Assembler, fs: seq<Bytes>, hs: seq<Header>, i: nat, header: Bytes,
          ghost start: Bytes) returns (r: Outcome)
    requires AllRead(fs, hs) && i < |hs| && |fs| == |hs|
    requires a.Ready(start, Image(fs, hs, header)) && a.pos == |Upto(header, Blobs(fs, hs), |AllTensors(hs[..i])|)|
    modifies a, a.dst
    ensures r == Done ==>
            a.Ready(start, Image(fs, hs, header)) && a.pos == |Upto(header, Blobs(fs, hs), |AllTensors(hs[..i + 1])|)|
    ensures r == Differs ==> a.dst.contents == start && !(start <= Image(fs, hs, header))
    ensures Left(a.dst.contents, start, Image(fs, hs, header))
    ensures r == Done || r == Cancelled || r == Differs || r == Failed
    ensures Excused(a.dst, old(a.dst.failed), old(a.dst.cancelled), r)
  {
    hide ReadHeader, PaddedBlob, Upto, Image, Concat, Align, Left, At, AllTensors, Blobs, ShardBlobs;
    var h := hs[i];
    ghost var image, blobs, base := Image(fs, hs, header), Blobs(fs, hs), |AllTensors(hs[..i])|;
    BlobsAt(fs, hs, i);
    AtLeft(a.dst.contents, start, image, a.pos);
    ImageIs(fs, hs, header);
    var j := 0;
    while j < |h.tensors|
      invariant 0 <= j <= |h.tensors| && a.Ready(start, image) && a.pos == |Upto(header, blobs, base + j)|
      invariant Left(a.dst.contents, start, image)
      invariant Excused(a.dst, old(a.dst.failed), old(a.dst.cancelled), Done)
    {
      var t := h.tensors[j];
      var seeks := a.dst.Works();
      if !seeks {
        return Failed;
      }
      UptoSteps(header, blobs, base + j);
      NextPiece(image, Upto(header, blobs, base + j), PaddedBlob(blobs[base + j]));
      PaddedIs(blobs[base + j]);
      r := CopyTensor(a, fs[i], h.data + t.offset, t.size, start, image);
      if r != Done {
        return;
      }
      j := j + 1;
    }
    r := Done;
  }

  /** Shard `i`'s blobs are bytes of its file. */
  lemma BlobsAt(fs: seq<Bytes>, hs: seq<Header>, i: nat)
    requires AllRead(fs, hs) && |fs| == |hs| && i < |hs|
    ensures var base, h := |AllTensors(hs[..i])|, hs[i];
            && |AllTensors(hs[..i + 1])| == base + |h.tensors| <= |Blobs(fs, hs)|
            && forall j :: 0 <= j < |h.tensors| ==>
                 var at := h.data + h.tensors[j].offset;
                 at + h.tensors[j].size <= |fs[i]| && Blobs(fs, hs)[base + j] == fs[i][at..at + h.tensors[j].size]
  {
    hide ReadHeader, AllTensors, Blobs, ShardBlobs;
    ReadIsTrusted(fs[i], hs[i]);
    ShardAt(fs, hs, i);
    BlobsFit(fs[i], hs[i]);
  }

  lemma NextPiece(image: Bytes, front: Bytes, piece: Bytes)
    requires front + piece <= image
    ensures |front| + |piece| <= |image| && image[|front|..|front| + |piece|] == piece
  {
    assert image[|front|..|front| + |piece|] == (front + piece)[|front|..];
  }

  lemma ImageIs(fs: seq<Bytes>, hs: seq<Header>, header: Bytes)
    requires |fs| == |hs|
    ensures Image(fs, hs, header) == Upto(header, Blobs(fs, hs), |Blobs(fs, hs)|)
  {
    hide Concat, PaddedBlob, Blobs;
    var p := PaddedBlobs(Blobs(fs, hs));
    assert p[..|p|] == p;
  }

  /** Shard `i`'s blobs among all of them. */
  lemma {:induction false} ShardAt(fs: seq<Bytes>, hs: seq<Header>, i: nat)
    requires |fs| == |hs| && i < |hs|
    ensures var base, ts := |AllTensors(hs[..i])|, hs[i].tensors;
            && |AllTensors(hs[..i + 1])| == base + |ts| <= |Blobs(fs, hs)|
            && forall j :: 0 <= j < |ts| ==> Blobs(fs, hs)[base + j] == ShardBlobs(fs[i], hs[i].data, ts)[j]
  {
    hide ShardBlobs, Blobs, AllTensors;
    var n := |hs| - 1;
    LastShard(fs, hs);
    OneMoreShard(hs, i);
    if i == n {
      assert hs[..i + 1] == hs && hs[..i] == hs[..n];
    } else {
      assert hs[..n][..i] == hs[..i] && hs[..n][..i + 1] == hs[..i + 1];
      ShardAt(fs[..n], hs[..n], i);
    }
  }

  lemma LastShard(fs: seq<Bytes>, hs: seq<Header>)
    requires |fs| == |hs| && hs != []
    ensures var n := |hs| - 1; Blobs(fs, hs) == Blobs(fs[..n], hs[..n]) + ShardBlobs(fs[n], hs[n].data, hs[n].tensors)
  {
    hide ShardBlobs;
  }

  lemma OneMoreShard(hs: seq<Header>, i: nat)
    requires i < |hs|
    ensures AllTensors(hs[..i + 1]) == AllTensors(hs[..i]) + hs[i].tensors
  {
    assert hs[..i + 1][..i] == hs[..i];
  }

  // ----- the merge -----

  method ReadShards(fs: seq<Bytes>) returns (ok: bool, hs: seq<Header>)
    ensures ok ==> AllRead(fs, hs)
    ensures !ok ==> exists i :: 0 <= i < |fs| && ReadHeader(fs[i]) == None
  {
    hide ReadHeader;
    hs := [];
    var i := 0;
    while i < |fs|
      invariant 0 <= i <= |fs| && |hs| == i && forall k :: 0 <= k < i ==> ReadHeader(fs[k]) == Some(hs[k])
    {
      var h := ReadGguf(fs[i]);
      if h == None {
        return false, hs;
      }
      hs := hs + [h.value];
      i := i + 1;
    }
    ok := true;
  }

  /** The image the shards are to become. */
  ghost predicate Merges(fs: seq<Bytes>, image: Bytes) {
    exists hs :: AllRead(fs, hs) && PlanOf(hs).Some? && image == Image(fs, hs, PlanOf(hs).value.header)
  }

  /** One run of the merge: the file before and after it, how it ended, and the image it worked towards. */
  datatype Attempt = Attempt(before: Bytes, after: Bytes, end: Outcome, image: Bytes)

  /** What a run does. Done leaves exactly the image; a file that is no beginning of the image is refused as it was;
      an interruption leaves it as it was or a longer beginning of the image. */
  ghost predicate Ran(fs: seq<Bytes>, expected: nat, a: Attempt) {
    match a.end
    case Done => Merges(fs, a.image) && a.after == a.image && |a.image| == expected && a.before <= a.image
    case Differs => Merges(fs, a.image) && a.after == a.before && !(a.before <= a.image)
    case Cancelled | Failed => Merges(fs, a.image) && Left(a.after, a.before, a.image)
    case TooLong => Merges(fs, a.image) && |a.image| == expected && a.after == a.before && |a.before| > expected
    case WrongSize => Merges(fs, a.image) && |a.image| != expected && a.after == a.before
    case BadPlan => a.after == a.before && exists hs :: AllRead(fs, hs) && PlanOf(hs) == None
    case BadShard => a.after == a.before && exists i :: 0 <= i < |fs| && ReadHeader(fs[i]) == None
  }

  /** `mergeGGUF` up to the checksum. */
  method Merge(fs: seq<Bytes>, dst: PendingFile, expected: nat) returns (r: Outcome, ghost image: Bytes)
    requires dst.pos == 0
    modifies dst
    ensures Ran(fs, expected, Attempt(old(dst.contents), dst.contents, r, image))
    ensures Excused(dst, old(dst.failed), old(dst.cancelled), r)
  {
    hide ReadHeader, AcceptedSet, Padded, RawHeader, Image, DataSize, Left, Upto, Blobs, AllTensors, PlanOf;
    image := [];
    ghost var start := dst.contents;
    var ok, hs := ReadShards(fs);
    if !ok {
      return BadShard, image;
    }
    var plan := MakePlan(hs);
    if plan == None {
      return BadPlan, image;
    }
    var header := plan.value.header;
    image := Image(fs, hs, header);
    ImageLength(fs, hs, plan.value);
    if plan.value.total != expected {
      return WrongSize, image;
    }
    var completed := |dst.contents|;
    if completed > expected {
      return TooLong, image;
    }
    var a := new Assembler(dst, completed);
    assert At(start, start, image, 0);
    ImageBegins(fs, hs, header);
    r := a.Append(header, start, image);
    if r != Done {
      return;
    }
    HeaderFirst(fs, hs, header);
    var i := 0;
    while i < |hs|
      invariant 0 <= i <= |hs| && a.Ready(start, image) && a.pos == |Upto(header, Blobs(fs, hs), |AllTensors(hs[..i])|)|
      invariant a.dst == dst && Left(dst.contents, start, image)
      invariant Excused(dst, old(dst.failed), old(dst.cancelled), Done)
    {
      r := CopyShard(a, fs, hs, i, header, start);
      if r != Done {
        return;
      }
      i := i + 1;
    }
    assert hs[..i] == hs;
    ImageIs(fs, hs, header);
    Complete(dst.contents, start, image);
    r := Done;
  }

  lemma ImageLength(fs: seq<Bytes>, hs: seq<Header>, plan: Plan)
    requires AllRead(fs, hs) && PlanOf(hs) == Some(plan)
    ensures |Image(fs, hs, plan.header)| == plan.total
  {
    hide ReadHeader, AcceptedSet, Padded, RawHeader, Blobs, AllTensors, AllWellRead, DataSize, Concat;
    AllTrusted(fs, hs);
    BlobsSize(Blobs(fs, hs), AllTensors(hs));
  }

  lemma ImageBegins(fs: seq<Bytes>, hs: seq<Header>, header: Bytes)
    requires |fs| == |hs|
    ensures |header| <= |Image(fs, hs, header)| && Image(fs, hs, header)[0..0 + |header|] == header
  {
    hide Concat, PaddedBlobs, Blobs;
  }

  lemma HeaderFirst(fs: seq<Bytes>, hs: seq<Header>, header: Bytes)
    requires |fs| == |hs|
    ensures AllTensors(hs[..0]) == [] && |Upto(header, Blobs(fs, hs), 0)| == |header|
  {
    hide PaddedBlob, Blobs;
  }

  lemma Complete(file: Bytes, start: Bytes, image: Bytes)
    requires At(file, start, image, |image|) && |start| <= |image|
    ensures file == image && start <= image
  {
    assert image[..|image|] == image;
    if |image| <= |start| {
      assert start[..|image|] == start;
    }
  }

  /** Shards that have an image are all read, and have a plan. */
  lemma MergesReads(fs: seq<Bytes>, image: Bytes)
    requires Merges(fs, image)
    ensures forall i :: 0 <= i < |fs| ==> ReadHeader(fs[i]).Some?
    ensures forall hs :: AllRead(fs, hs) ==> PlanOf(hs).Some?
  {
    hide ReadHeader, PlanOf, Image;
    var hs :| AllRead(fs, hs) && PlanOf(hs).Some? && image == Image(fs, hs, PlanOf(hs).value.header);
    forall other | AllRead(fs, other) ensures other == hs {}
  }

  lemma OneImage(fs: seq<Bytes>, a: Bytes, b: Bytes)
    requires Merges(fs, a) && Merges(fs, b)
    ensures a == b
  {
    hide ReadHeader, PlanOf, Image;
    var h1 :| AllRead(fs, h1) && PlanOf(h1).Some? && a == Image(fs, h1, PlanOf(h1).value.header);
    var h2 :| AllRead(fs, h2) && PlanOf(h2).Some? && b == Image(fs, h2, PlanOf(h2).value.header);
    assert h1 == h2;
  }

  /** Runs of the merge on one file, each started on what the last one left. */
  ghost predicate Rerun(fs: seq<Bytes>, expected: nat, runs: seq<Attempt>) {
    && (forall i :: 0 <= i < |runs| ==> Ran(fs, expected, runs[i]))
    && (forall i :: 0 < i < |runs| ==> runs[i].before == runs[i - 1].after)
  }

  /** However often the merge is interrupted, the file stays a beginning of the one image of the shards and no rerun
      refuses it or them; the run that completes leaves the image. */
  lemma {:induction false} RerunsEndAlike(fs: seq<Bytes>, expected: nat, runs: seq<Attempt>, image: Bytes)
    requires Rerun(fs, expected, runs) && Merges(fs, image) && |image| == expected
    requires runs != [] && runs[0].before <= image
    ensures forall i :: 0 <= i < |runs| ==>
              && runs[i].after <= image && (runs[i].end == Done || runs[i].end == Cancelled || runs[i].end == Failed)
              && (runs[i].end == Done ==> runs[i].after == image)
  {
    hide Merges, PlanOf, ReadHeader;
    var n := |runs| - 1;
    MergesReads(fs, image);
    if n > 0 {
      assert runs[..n][0] == runs[0];
      RerunsEndAlike(fs, expected, runs[..n], image);
      assert runs[n].before == runs[..n][n - 1].after;
    }
    if !runs[n].end.BadPlan? && !runs[n].end.BadShard? {
      OneImage(fs, runs[n].image, image);
    }
  }
}
