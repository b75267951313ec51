/** The image encoder's cache (vision.go): least-recently-used eviction, and who owns each encoded buffer. Every
    method here is one critical section of `Encode` or `SetLimits`, or the unlocked work between two. */
module ImageCache {
  import opened Text

  type Image = string
  type Key = string
  type Buffer = nat

  /** Where an encoded buffer is: with a call that may still cache it, in the cache, freed, or with a caller. */
  datatype Fate = InFlight | Cached | Freed | Given

  datatype Entry = Entry(emb: Buffer, bytes: int)

  predicate AllIn(order: seq<Key>, entries: map<Key, Entry>) {
    forall i :: 0 <= i < |order| ==> order[i] in entries
  }

  function SumBytes(order: seq<Key>, entries: map<Key, Entry>): int
    requires AllIn(order, entries)
  {
    if order == [] then 0 else SumBytes(order[..|order| - 1], entries) + entries[order[|order| - 1]].bytes
  }

  predicate Distinct(order: seq<Key>) {
    forall i, j :: 0 <= i < j < |order| ==> order[i] != order[j]
  }

  lemma {:induction false} SumSame(order: seq<Key>, entries: map<Key, Entry>, entries': map<Key, Entry>)
    requires AllIn(order, entries) && AllIn(order, entries') && forall i ::
             0 <= i < |order| ==> entries[order[i]] == entries'[order[i]]
    ensures SumBytes(order, entries) == SumBytes(order, entries')
  {
    if order != [] {
      SumSame(order[..|order| - 1], entries, entries');
    }
  }

  /** A sum does not depend on where one key stands. */
  lemma {:induction false} SumMoved(a: seq<Key>, k: Key, b: seq<Key>, entries: map<Key, Entry>)
    requires k in entries && AllIn(a, entries) && AllIn(b, entries)
    ensures SumBytes(a + [k] + b, entries) == SumBytes(a, entries) + entries[k].bytes + SumBytes(b, entries)
  {
    if b == [] {
      assert a + [k] + b == a + [k] && (a + [k])[..|a|] == a;
    } else {
      var init, last := b[..|b| - 1], b[|b| - 1];
      SumMoved(a, k, init, entries);
      assert (a + [k] + b)[..|a + [k] + b| - 1] == a + [k] + init;
    }
  }

  lemma SumJoined(a: seq<Key>, b: seq<Key>, entries: map<Key, Entry>)
    requires AllIn(a, entries) && AllIn(b, entries)
    ensures SumBytes(a + b, entries) == SumBytes(a, entries) + SumBytes(b, entries)
  {
    if b == [] {
      assert a + b == a;
    } else {
      assert a + b == a + [b[0]] + b[1..] && b == [] + [b[0]] + b[1..];
      SumMoved(a, b[0], b[1..], entries);
      SumMoved([], b[0], b[1..], entries);
    }
  }

  /** What the cache and its buffers are at an unlock. */
  datatype World = World(maxEntries: int, maxBytes: int, bytes: int, order: seq<Key>, entries: map<Key, Entry>,
                         fate: map<Buffer, Fate>, source: map<Buffer, Image>)

  /** The order lists the keys of the map, each once. */
  ghost predicate Listed(order: seq<Key>, entries: map<Key, Entry>) {
    Distinct(order) && forall k :: k in order <==> k in entries
  }

  /** Every entry was encoded from an image of its key, and its size is that image's. */
  ghost predicate Labelled(hash: Image -> Key, size: Image -> int, entries: map<Key, Entry>, source: map<Buffer,
          Image>) {
    forall k :: k in entries ==>
      var e := entries[k]; e.emb in source && hash(source[e.emb]) == k && e.bytes == size(source[e.emb]) && e.bytes > 0
  }

  /** Order and map agree, and the byte count is the sum of the entries. */
  ghost predicate Consistent(hash: Image -> Key, size: Image -> int, w: World) {
    Listed(w.order, w.entries) && Labelled(hash, size, w.entries, w.source) && AllIn(w.order, w.entries) &&
        w.bytes == SumBytes(w.order, w.entries)
  }

  /** The cached buffers are those in the cache, each under one key. */
  ghost predicate Holds(entries: map<Key, Entry>, fate: map<Buffer, Fate>) {
    && (forall k :: k in entries ==> entries[k].emb in fate && fate[entries[k].emb] == Cached)
    && (forall b :: b in fate && fate[b] == Cached ==> exists k :: k in entries && entries[k].emb == b)
    && (forall j, k :: j in entries && k in entries && entries[j].emb == entries[k].emb ==> j == k)
  }

  /** Every buffer has one fate, and exactly the cached ones are in the cache. */
  ghost predicate Owned(w: World) {
    w.fate.Keys == w.source.Keys && Holds(w.entries, w.fate)
  }

  /** Limits that are not negative hold. */
  predicate WithinLimits(w: World) {
    w.maxEntries >= 0 && w.maxBytes >= 0 ==> |w.order| <= w.maxEntries && w.bytes <= w.maxBytes
  }

  ghost predicate Sound(hash: Image -> Key, size: Image -> int, w: World) {
    Consistent(hash, size, w) && Owned(w) && WithinLimits(w)
  }

  /** Nobody else's buffer is touched: what was freed or handed out stays so, and of the buffers in flight only
      `mine` may move. */
  ghost predicate Respects(w: World, w': World, mine: set<Buffer>) {
    forall b :: b in w.fate ==>
      && b in w'.fate && b in w'.source && b in w.source && w'.source[b] == w.source[b]
      && (w'.fate[b] == w.fate[b] || (w.fate[b] == Cached && w'.fate[b] == Freed) ||
         (w.fate[b] == InFlight && b in mine))
  }

  class ImageEncoder {
    const hash: Image -> Key
    const size: Image -> int
    var maxEntries: int
    var maxBytes: int
    var bytes: int
    var order: seq<Key>
    var entries: map<Key, Entry>

    // the buffers of the library, and what each was encoded from
    ghost var fate: map<Buffer, Fate>
    ghost var source: map<Buffer, Image>
    var next: Buffer

    ghost function Now(): World
      reads this
    {
      World(maxEntries, maxBytes, bytes, order, entries, fate, source)
    }

    ghost predicate Valid()
      reads this
    {
      Sound(hash, size, Now()) && forall b :: b in fate ==> b < next
    }

    constructor (hash: Image -> Key, size: Image -> int)
      ensures Valid() && this.hash == hash && this.size == size && fate == map[]
    {
      this.hash, this.size := hash, size;
      maxEntries, maxBytes, bytes, order, entries := 32, 0x800_0000, 0, [], map[];
      fate, source, next := map[], map[], 0;
    }

    lemma KeysAgree()
      requires Valid()
      ensures fate.Keys == source.Keys
    {}

    /** A fresh buffer from the library. */
    method Allocate(ghost image: Image, ghost f: Fate) returns (b: Buffer)
      requires Valid() && f != Cached
      modifies this`fate, this`source, this`next
      ensures Valid() && Now() == old(Now()).(fate := old(fate)[b := f],
                                              source := old(source)[b := image]) && b !in old(fate)
    {
      b := next;
      next := next + 1;
      AllocationIsSound(hash, size, Now(), b, f, image);
      fate := fate[b := f];
      source := source[b := image];
    }

    /** A fresh copy of a cached buffer, for the caller, if the library can make one now. */
    method Clone(emb: Buffer, copies: bool) returns (clone: Option<Buffer>)
      requires Valid() && emb in source
      modifies this`fate, this`source, this`next
      ensures Valid() && (clone.Some? <==> copies)
      ensures clone == None ==> Now() == old(Now())
      ensures clone.Some? ==>
                && clone.value !in old(fate) && old(emb in source)
                && Now() == old(Now()).(fate := old(fate)[clone.value := Given],
                                        source := old(source)[clone.value := old(source[emb])])
    {
      if !copies {
        return None;
      }
      ghost var image := source[emb];
      var b := Allocate(image, Given);
      clone := Some(b);
    }

    /** The first critical section of `Encode`: a hit moves to the front and is copied under the lock, a miss only
        takes note of the byte budget. */
    method Lookup(image: Image, copies: bool) returns (hit: bool, clone: Option<Buffer>, budget: int)
      requires Valid()
      modifies this`order, this`fate, this`source, this`next
      ensures Valid() && hit == (hash(image) in old(entries)) && entries == old(entries) &&
              Respects(old(Now()), Now(), {})
      ensures !hit ==> Now() == old(Now()) && budget == maxBytes && clone == None
      ensures hit ==> order == InFront(old(order), hash(image)) && (clone.Some? <==> copies)
      ensures hit && clone == None ==> fate == old(fate) && source == old(source)
      ensures clone.Some? ==>
              clone.value !in old(fate) && source.Keys == old(source).Keys + {clone.value} &&
                  Copied(hash(image), clone.value)
      ensures clone.Some? ==> fate == old(fate)[clone.value := Given]
    {
      hide Listed, Labelled, Holds, SumBytes, AllIn;
      budget := maxBytes;
      var key := hash(image);
      RespectsSelf(Now());
      if key !in entries {
        return false, None, budget;
      }
      hit := true;
      FrontIsSound(hash, size, Now(), key);
      order := InFront(order, key);
      EntryIsLabelled(hash, size, entries, source, key);
      clone := Clone(entries[key].emb, copies);
    }

    /** A caller's own copy of an image with this key. */
    ghost predicate Copied(key: Key, b: Buffer)
      reads this
    {
      b in fate && b in source && fate[b] == Given && hash(source[b]) == key
    }

    /** A buffer of ours is given up. */
    method Release(emb: Buffer)
      requires Valid() && emb in fate && fate[emb] == InFlight
      modifies this`fate
      ensures Valid() && Now() == old(Now()).(fate := old(fate)[emb := Freed])
    {
      hide Listed, Labelled, SumBytes;
      HoldsBeside(entries, fate, emb, Freed);
      fate := fate[emb := Freed];
    }

    /** The last critical section of `Encode`: the first buffer of an image is cached if it still fits the limits,
        any other is freed. */
    method Insert(image: Image, emb: Buffer)
      requires Valid() && emb in fate && fate[emb] == InFlight && source[emb] == image && size(image) > 0
      modifies this`order, this`entries, this`bytes, this`fate
      ensures Valid() && Respects(old(Now()), Now(), {emb}) && fate.Keys == old(fate).Keys && source == old(source)
      ensures emb in fate && (fate[emb] == Cached || fate[emb] == Freed)
      ensures fate[emb] == Cached <==>
              hash(image) !in old(entries) && old(maxEntries) > 0 && size(image) <= old(maxBytes)
      ensures fate[emb] == Cached ==>
              Now() == Pushed(EvictDown(old(Now()), 1, size(image)), hash(image), emb, size(image))
      ensures fate[emb] == Freed ==> Now() == old(Now()).(fate := old(fate)[emb := Freed])
    {
      hide Listed, Labelled, Holds, SumBytes, AllIn, Respects, EvictDown;
      var key := hash(image);
      if key in entries || maxEntries <= 0 || size(image) > maxBytes {
        Released(Now(), emb, {emb});
        Release(emb);
        return;
      }
      ghost var was := Now();
      EvictDownIsSound(hash, size, was, 1, size(image));
      KeysOnlyGo(was, 1, size(image), key);
      Evict(1, size(image));
      ghost var room := Now();
      InFlightStays(was, room, emb);
      PushIsSound(hash, size, room, key, emb, image);
      RespectsMine(was, room, Pushed(room, key, emb, size(image)), emb);
      PushFront(key, emb, size(image));
    }

    method PushFront(key: Key, emb: Buffer, n: int)
      modifies this`order, this`entries, this`bytes, this`fate
      ensures Now() == Pushed(old(Now()), key, emb, n)
    {
      order := [key] + order;
      entries := entries[key := Entry(emb, n)];
      bytes := bytes + n;
      fate := fate[emb := Cached];
    }

    /** `SetLimits`. */
    method SetLimits(newEntries: int, newBytes: int)
      requires Valid()
      modifies this`maxEntries, this`maxBytes, this`order, this`entries, this`bytes, this`fate
      ensures Valid() && Respects(old(Now()), Now(), {}) && fate.Keys == old(fate).Keys && source == old(source)
      ensures Now() == EvictDown(old(Now()).(maxEntries := newEntries, maxBytes := newBytes), 0, 0)
      ensures maxEntries == newEntries && maxBytes == newBytes
    {
      hide Listed, Labelled, Holds, SumBytes, AllIn;
      maxEntries, maxBytes := newEntries, newBytes;
      EvictDownIsSound(hash, size, Now(), 0, 0);
      Evict(0, 0);
      NothingSummed(Now());
    }

    /** One eviction: the least recently used entry is freed. */
    method DropLast()
      requires order != [] && order[|order| - 1] in entries
      modifies this`order, this`entries, this`bytes, this`fate
      ensures Now() == Evicted(old(Now()))
    {
      var key := order[|order| - 1];
      var entry := entries[key];
      order := order[..|order| - 1];
      entries := entries - {key};
      bytes := bytes - entry.bytes;
      fate := fate[entry.emb := Freed];
    }

    /** `evictLocked`. */
    method Evict(incomingEntries: nat, incomingBytes: nat)
      requires Consistent(hash, size, Now()) && Owned(Now())
      modifies this`order, this`entries, this`bytes, this`fate
      ensures Now() == EvictDown(old(Now()), incomingEntries, incomingBytes)
    {
      hide Consistent, Owned, Evicted, Respects;
      ghost var was := Now();
      while order != [] && (|order| + incomingEntries > maxEntries || bytes + incomingBytes > maxBytes)
        invariant Consistent(hash, size, Now()) && Owned(Now())
        invariant EvictDown(was, incomingEntries, incomingBytes) == EvictDown(Now(), incomingEntries, incomingBytes)
        decreases |order|
      {
        EvictionIsSound(hash, size, Now());
        EvictedIs(Now());
        DropLast();
      }
    }
  }

  /** The world after its least recently used entry is gone. */
  function Evicted(w: World): World
    requires w.order != [] && w.order[|w.order| - 1] in w.entries
  {
    var key := w.order[|w.order| - 1];
    var e := w.entries[key];
    w.(order := w.order[..|w.order| - 1], entries := w.entries - {key}, bytes := w.bytes - e.bytes,
       fate := w.fate[e.emb := Freed])
  }

  /** Room for more entries and bytes. */
  predicate Roomy(w: World, incomingEntries: nat, incomingBytes: nat) {
    |w.order| + incomingEntries <= w.maxEntries && w.bytes + incomingBytes <= w.maxBytes
  }

  /** The world with its least recently used entries gone until there is room, or nothing left. */
  function EvictDown(w: World, incomingEntries: nat, incomingBytes: nat): World
    decreases |w.order|
  {
    if w.order == [] || Roomy(w, incomingEntries, incomingBytes) || w.order[|w.order| - 1] !in w.entries then w
    else EvictDown(Evicted(w), incomingEntries, incomingBytes)
  }

  /** What is left is consistent and has the room; nobody's buffer was touched but those freed from the cache. */
  lemma {:induction false} EvictDownIsSound(hash: Image -> Key, size: Image -> int, w: World, a: nat, b: nat)
    requires Consistent(hash, size, w) && Owned(w)
    ensures var t := EvictDown(w, a, b);
            && Consistent(hash, size, t) && Owned(t) && Respects(w, t, {}) && t.fate.Keys == w.fate.Keys
            && t.maxEntries == w.maxEntries && t.maxBytes == w.maxBytes && t.source == w.source
            && (t.order == [] || Roomy(t, a, b))
    decreases |w.order|
  {
    hide Labelled, Holds, SumBytes, Listed, AllIn, Evicted, Respects;
    RespectsSelf(w);
    if w.order != [] && !Roomy(w, a, b) {
      EvictionIsSound(hash, size, w);
      EvictedIs(w);
      EvictDownIsSound(hash, size, Evicted(w), a, b);
      RespectsChain(w, Evicted(w), EvictDown(Evicted(w), a, b));
    }
  }

  lemma EvictedIs(w: World)
    requires w.order != [] && w.order[|w.order| - 1] in w.entries
    ensures var t := Evicted(w);
            && t.maxEntries == w.maxEntries && t.maxBytes == w.maxBytes && t.source == w.source &&
               t.order == w.order[..|w.order| - 1]
            && t.entries == w.entries - {w.order[|w.order| - 1]}
  {}

  lemma RespectsSelf(w: World)
    requires w.fate.Keys == w.source.Keys
    ensures Respects(w, w, {})
  {}

  lemma RespectsChain(a: World, b: World, c: World)
    requires Respects(a, b, {}) && Respects(b, c, {})
    ensures Respects(a, c, {})
  {}

  /** The most recently used entries stay, as they were, and no more went than had to. */
  lemma {:induction false} LeastRecentGoFirst(w: World, a: nat, b: nat)
    requires Listed(w.order, w.entries) && AllIn(w.order, w.entries) && w.bytes == SumBytes(w.order, w.entries)
    ensures var t := EvictDown(w, a, b);
            && t.order <= w.order && Listed(t.order, t.entries)
            && (forall k :: k in t.entries ==> k in w.entries && t.entries[k] == w.entries[k])
            && forall n :: |t.order| < n <= |w.order| ==> !RoomFor(w, n, a, b)
    decreases |w.order|
  {
    hide SumBytes, Listed, Evicted, AllIn;
    if w.order != [] && !Roomy(w, a, b) {
      SumWithout(w.order, w.entries);
      ListedWithout(w.order, w.entries);
      EvictedIs(w);
      EvictedBytes(w);
      var t := Evicted(w);
      LeastRecentGoFirst(t, a, b);
      var r := EvictDown(w, a, b);
      forall n | |r.order| < n <= |w.order| ensures !RoomFor(w, n, a, b) {
        if n < |w.order| {
          SamePrefix(w, t, n);
          assert !RoomFor(t, n, a, b);
        } else {
          assert w.order[..n] == w.order;
        }
      }
    }
  }

  /** The first `n` entries would leave the room. */
  predicate RoomFor(w: World, n: nat, a: nat, b: nat) {
    n <= |w.order| && AllIn(w.order[..n], w.entries) && n + a <= w.maxEntries &&
        SumBytes(w.order[..n], w.entries) + b <= w.maxBytes
  }

  lemma EvictedBytes(w: World)
    requires w.order != [] && w.order[|w.order| - 1] in w.entries
    ensures Evicted(w).bytes == w.bytes - w.entries[w.order[|w.order| - 1]].bytes
  {}

  lemma SamePrefix(w: World, t: World, n: nat)
    requires w.order != [] && n < |w.order| && t.order == w.order[..|w.order| - 1] &&
             t.entries == w.entries - {w.order[|w.order| - 1]}
    requires t.maxEntries == w.maxEntries && t.maxBytes == w.maxBytes && AllIn(t.order, t.entries) &&
             AllIn(w.order, w.entries)
    ensures forall a: nat, b: nat :: RoomFor(w, n, a, b) == RoomFor(t, n, a, b)
  {
    assert t.order[..n] == w.order[..n];
    assert AllIn(w.order[..n], w.entries) && AllIn(w.order[..n], t.entries) by {
      assert forall i :: 0 <= i < n ==> w.order[..n][i] == w.order[i] == t.order[i];
    }
    SumSame(w.order[..n], w.entries, t.entries);
  }

  lemma EvictionIsSound(hash: Image -> Key, size: Image -> int, w: World)
    requires Consistent(hash, size, w) && Owned(w) && w.order != []
    ensures w.order[|w.order| - 1] in w.entries && w.entries[w.order[|w.order| - 1]].emb in w.fate
    ensures var t := Evicted(w);
            Consistent(hash, size, t) && Owned(t) && Respects(w, t, {}) && t.fate.Keys == w.fate.Keys
  {
    hide Labelled, Holds, Listed, SumBytes;
    assert w.order[|w.order| - 1] in w.entries && AllIn(w.order, w.entries);
    var key := w.order[|w.order| - 1];
    EntryIsHeld(w.entries, w.fate, key);
    ListedWithout(w.order, w.entries);
    LabelledWithout(hash, size, w.entries, w.source, key);
    HoldsWithout(w.entries, w.fate, key);
    SumWithout(w.order, w.entries);
  }

  lemma EntryIsHeld(entries: map<Key, Entry>, fate: map<Buffer, Fate>, key: Key)
    requires Holds(entries, fate) && key in entries
    ensures entries[key].emb in fate && fate[entries[key].emb] == Cached
  {}

  lemma ListedWithout(order: seq<Key>, entries: map<Key, Entry>)
    requires Listed(order, entries) && order != []
    ensures Listed(order[..|order| - 1], entries - {order[|order| - 1]})
  {
    var key, init := order[|order| - 1], order[..|order| - 1];
    forall k ensures k in init <==> k in entries - {key} {
      if k in order && k != key {
        var i :| 0 <= i < |order| && order[i] == k;
        assert init[i] == k;
      }
    }
  }

  lemma LabelledWithout(hash: Image -> Key, size: Image -> int, entries: map<Key, Entry>, source: map<Buffer, Image>,
          key: Key)
    requires Labelled(hash, size, entries, source)
    ensures Labelled(hash, size, entries - {key}, source)
  {}

  lemma HoldsWithout(entries: map<Key, Entry>, fate: map<Buffer, Fate>, key: Key)
    requires Holds(entries, fate) && key in entries
    ensures Holds(entries - {key}, fate[entries[key].emb := Freed])
  {
    var rest, fate' := entries - {key}, fate[entries[key].emb := Freed];
    forall b | b in fate' && fate'[b] == Cached ensures exists k :: k in rest && rest[k].emb == b {
      var k :| k in entries && entries[k].emb == b;
      assert k in rest && rest[k].emb == b;
    }
  }

  lemma SumWithout(order: seq<Key>, entries: map<Key, Entry>)
    requires Listed(order, entries) && order != []
    ensures order[|order| - 1] in entries && AllIn(order[..|order| - 1], entries - {order[|order| - 1]}) &&
            AllIn(order, entries)
    ensures SumBytes(order[..|order| - 1], entries - {order[|order| - 1]}) ==
            SumBytes(order, entries) - entries[order[|order| - 1]].bytes
  {
    SumSame(order[..|order| - 1], entries, entries - {order[|order| - 1]});
  }

  lemma AllocationIsSound(hash: Image -> Key, size: Image -> int, w: World, b: Buffer, f: Fate, image: Image)
    requires Sound(hash, size, w) && b !in w.fate && f != Cached
    ensures Sound(hash, size, w.(fate := w.fate[b := f], source := w.source[b := image]))
  {
    hide Listed, SumBytes;
    HoldsBeside(w.entries, w.fate, b, f);
    LabelledBeside(hash, size, w.entries, w.source, b, image);
  }

  lemma HoldsBeside(entries: map<Key, Entry>, fate: map<Buffer, Fate>, b: Buffer, f: Fate)
    requires Holds(entries, fate) && f != Cached && (b in fate ==> fate[b] != Cached)
    ensures Holds(entries, fate[b := f])
  {
    var fate' := fate[b := f];
    forall c | c in fate' && fate'[c] == Cached ensures exists k :: k in entries && entries[k].emb == c {
      assert c in fate && fate[c] == Cached;
    }
  }

  lemma LabelledBeside(hash: Image -> Key, size: Image -> int, entries: map<Key, Entry>, source: map<Buffer, Image>,
          b: Buffer, image: Image)
    requires Labelled(hash, size, entries, source) && b !in source
    ensures Labelled(hash, size, entries, source[b := image])
  {}

  /** Where a listed key stands. */
  function Position(order: seq<Key>, key: Key): (n: nat)
    requires key in order
    ensures n < |order| && order[n] == key
  {
    if order[0] == key then 0 else 1 + Position(order[1..], key)
  }

  /** The list with a key moved to the front. */
  function InFront(order: seq<Key>, key: Key): seq<Key>
    requires key in order
  {
    var n := Position(order, key);
    [key] + order[..n] + order[n + 1..]
  }

  /** The list without a key. */
  function Others(order: seq<Key>, key: Key): seq<Key> {
    if order == [] then [] else (if order[0] == key then [] else [order[0]]) + Others(order[1..], key)
  }

  lemma {:induction false} OthersAround(a: seq<Key>, key: Key, b: seq<Key>)
    requires key !in a && key !in b
    ensures Others(a + [key] + b, key) == a + b && Others(b, key) == b
    decreases |a|, |b|
  {
    var all := a + [key] + b;
    if a != [] {
      assert all[1..] == a[1..] + [key] + b && all[0] == a[0];
      OthersAround(a[1..], key, b);
    } else {
      assert all[1..] == b;
      if b != [] {
        OthersAround([], key, b[1..]);
      }
    }
  }

  /** Only the key moves: the others keep their order behind it. */
  lemma FrontThenOthers(order: seq<Key>, key: Key)
    requires Distinct(order) && key in order
    ensures InFront(order, key) == [key] + Others(order, key)
  {
    hide Others;
    var n := Position(order, key);
    OthersAround(order[..n], key, order[n + 1..]);
    assert order == order[..n] + [key] + order[n + 1..];
  }

  lemma FrontIsSound(hash: Image -> Key, size: Image -> int, w: World, key: Key)
    requires Sound(hash, size, w) && key in w.entries
    ensures key in w.order
    ensures var t := w.(order := InFront(w.order, key)); Sound(hash, size, t) && Respects(w, t, {})
  {
    assert
      && key in w.order && AllIn(w.order, w.entries)
      && Listed(InFront(w.order, key), w.entries) && AllIn(InFront(w.order, key), w.entries) &&
         |InFront(w.order, key)| == |w.order|
      && SumBytes(InFront(w.order, key), w.entries) == SumBytes(w.order, w.entries) by {
      hide SumBytes, AllIn, Listed, Distinct;
      KeyIsListed(w.order, w.entries, key);
      var n := Position(w.order, key);
      var a, b := w.order[..n], w.order[n + 1..];
      assert w.order == a + [key] + b;
      ListedMoved(a, key, b, w.entries);
      SumFront(a, key, b, w.entries);
    }
    hide Labelled, Holds, SumBytes, AllIn, Listed, Respects, InFront;
    assert Respects(w, w.(order := InFront(w.order, key)), {});
  }

  lemma KeyIsListed(order: seq<Key>, entries: map<Key, Entry>, key: Key)
    requires Listed(order, entries) && key in entries
    ensures key in order
  {}

  lemma Released(w: World, emb: Buffer, mine: set<Buffer>)
    requires w.fate.Keys == w.source.Keys && emb in w.fate && w.fate[emb] == InFlight && emb in mine
    ensures Respects(w, w.(fate := w.fate[emb := Freed]), mine)
  {}

  lemma SumFront(a: seq<Key>, key: Key, b: seq<Key>, entries: map<Key, Entry>)
    requires key in entries && AllIn(a, entries) && AllIn(b, entries) && AllIn([key] + a + b, entries) &&
             AllIn(a + [key] + b, entries)
    ensures SumBytes([key] + a + b, entries) == SumBytes(a + [key] + b, entries)
  {
    assert [key] + a + b == [] + [key] + (a + b);
    assert forall i :: 0 <= i < |a + b| ==> (a + b)[i] == ([key] + a + b)[i + 1];
    SumMoved(a, key, b, entries);
    SumMoved([], key, a + b, entries);
    SumJoined(a, b, entries);
  }

  lemma ListedMoved(a: seq<Key>, key: Key, b: seq<Key>, entries: map<Key, Entry>)
    requires Listed(a + [key] + b, entries)
    ensures Listed([key] + a + b, entries) && key in entries
    ensures AllIn(a, entries) && AllIn(b, entries) && AllIn([key] + a + b, entries) && AllIn(a + [key] + b, entries)
  {
    assert AllIn((a + [key] + b), entries);
    hide Distinct, AllIn;
    assert forall k :: k in [key] + a + b <==> k in a + [key] + b;
    assert Distinct([key] + a + b) by {
      var o, t := a + [key] + b, [key] + a + b;
      forall i, j | 0 <= i < j < |t| ensures t[i] != t[j] {
        var i', j' := Origin(|a|, i), Origin(|a|, j);
        assert t[i] == o[i'] && t[j] == o[j'] && i' != j';
      }
    }
    PartsAreIn(a, key, b, entries);
  }

  lemma PartsAreIn(a: seq<Key>, key: Key, b: seq<Key>, entries: map<Key, Entry>)
    requires AllIn(a + [key] + b, entries)
    ensures key in entries && AllIn(a, entries) && AllIn(b, entries) && AllIn([key] + a + b, entries)
  {
    var o, t := a + [key] + b, [key] + a + b;
    assert o[|a|] == key;
    assert forall i :: 0 <= i < |a| ==> a[i] == o[i];
    assert forall i :: 0 <= i < |b| ==> b[i] == o[|a| + 1 + i];
    assert forall i :: 0 <= i < |t| ==> t[i] == o[Origin(|a|, i)];
  }

  /** Where an element of the reordered list came from. */
  function Origin(n: nat, i: nat): nat {
    if i == 0 then n else if i <= n then i - 1 else i
  }

  lemma EntryIsLabelled(hash: Image -> Key, size: Image -> int, entries: map<Key, Entry>, source: map<Buffer, Image>,
          key: Key)
    requires Labelled(hash, size, entries, source) && key in entries
    ensures entries[key].emb in source && hash(source[entries[key].emb]) == key
  {}

  lemma NothingSummed(w: World)
    ensures w.order == [] ==> AllIn(w.order, w.entries) && SumBytes(w.order, w.entries) == 0
  {}

  /** The world with a new entry in front. */
  function Pushed(w: World, key: Key, emb: Buffer, bytes: int): World {
    w.(order := [key] + w.order, entries := w.entries[key := Entry(emb, bytes)], bytes := w.bytes + bytes,
       fate := w.fate[emb := Cached])
  }

  lemma PushIsSound(hash: Image -> Key, size: Image -> int, w: World, key: Key, emb: Buffer, image: Image)
    requires Consistent(hash, size, w) && Owned(w) && key !in w.entries && emb in w.fate && w.fate[emb] == InFlight
    requires w.source[emb] == image && hash(image) == key && 0 < size(image) <= w.maxBytes && 0 < w.maxEntries
    requires w.order == [] || Roomy(w, 1, size(image))
    ensures Sound(hash, size, Pushed(w, key, emb, size(image))) && Respects(w, Pushed(w, key, emb, size(image)), {emb})
  {
    hide Listed, Labelled, Holds, SumBytes, AllIn;
    var t := Pushed(w, key, emb, size(image));
    ListedPushed(w.order, w.entries, key, t.entries[key]);
    LabelledPushed(hash, size, w.entries, w.source, key, t.entries[key]);
    HoldsPushed(w.entries, w.fate, key, t.entries[key]);
    NothingSummed(w);
  }

  lemma ListedPushed(order: seq<Key>, entries: map<Key, Entry>, key: Key, e: Entry)
    requires Listed(order, entries) && AllIn(order, entries) && key !in entries
    ensures Listed([key] + order, entries[key := e]) && AllIn([key] + order, entries[key := e])
    ensures SumBytes([key] + order, entries[key := e]) == e.bytes + SumBytes(order, entries)
  {
    hide Listed, SumBytes;
    KeysPushed(order, entries, key, e);
    SumPushed(order, entries, key, e);
  }

  lemma KeysPushed(order: seq<Key>, entries: map<Key, Entry>, key: Key, e: Entry)
    requires Listed(order, entries) && key !in entries
    ensures Listed([key] + order, entries[key := e])
  {
    var t := [key] + order;
    assert forall i :: 0 < i < |t| ==> t[i] == order[i - 1] && order[i - 1] in order;
    forall k ensures k in t <==> k in entries[key := e] {}
  }

  lemma SumPushed(order: seq<Key>, entries: map<Key, Entry>, key: Key, e: Entry)
    requires AllIn(order, entries) && key !in entries
    ensures AllIn([key] + order, entries[key := e])
    ensures SumBytes([key] + order, entries[key := e]) == e.bytes + SumBytes(order, entries)
  {
    var entries' := entries[key := e];
    assert forall i :: 0 <= i < |order| ==> order[i] in entries && order[i] != key;
    SumSame(order, entries, entries');
    assert [key] + order == [] + [key] + order;
    SumMoved([], key, order, entries');
  }

  lemma LabelledPushed(hash: Image -> Key, size: Image -> int, entries: map<Key, Entry>, source: map<Buffer, Image>,
          key: Key, e: Entry)
    requires Labelled(hash, size, entries, source) && e.emb in source && hash(source[e.emb]) == key &&
             e.bytes == size(source[e.emb]) > 0
    ensures Labelled(hash, size, entries[key := e], source)
  {}

  lemma HoldsPushed(entries: map<Key, Entry>, fate: map<Buffer, Fate>, key: Key, e: Entry)
    requires Holds(entries, fate) && key !in entries && e.emb in fate && fate[e.emb] != Cached
    ensures Holds(entries[key := e], fate[e.emb := Cached])
  {
    var entries', fate' := entries[key := e], fate[e.emb := Cached];
    forall b | b in fate' && fate'[b] == Cached ensures exists k :: k in entries' && entries'[k].emb == b {
      if b == e.emb {
        assert entries'[key].emb == b;
      } else {
        var k :| k in entries && entries[k].emb == b;
        assert k in entries' && entries'[k].emb == b;
      }
    }
  }

  lemma KeysOnlyGo(w: World, a: nat, b: nat, key: Key)
    requires key !in w.entries
    ensures key !in EvictDown(w, a, b).entries
    decreases |w.order|
  {
    hide Roomy;
    if w.order != [] && !Roomy(w, a, b) && w.order[|w.order| - 1] in w.entries {
      EvictedIs(w);
      KeysOnlyGo(Evicted(w), a, b, key);
    }
  }

  lemma RespectsMine(a: World, b: World, c: World, emb: Buffer)
    requires Respects(a, b, {}) && Respects(b, c, {emb})
    ensures Respects(a, c, {emb})
  {}

  lemma InFlightStays(w: World, t: World, emb: Buffer)
    requires Respects(w, t, {}) && emb in w.fate && w.fate[emb] == InFlight
    ensures emb in t.fate && t.fate[emb] == InFlight
  {}
}
