/** Encode calls over one cache, interleaved step by step in any order (vision.go:115-191): between its critical
    sections a call holds no lock, and any other may run. */
module ImageCalls {
  import opened Text
  import opened ImageCache

  type Id = nat

  /** Where a call is: it missed and encodes, it holds a fresh buffer and the caller's copy, or it has returned. */
  datatype Phase =
    | Missed(image: Image, budget: int)
    | Encoded(image: Image, emb: Buffer, clone: Buffer)
    | Returned(image: Image, result: Option<Buffer>)

  datatype Move = Begin(id: Id, image: Image) | Encode(id: Id) | Insert(id: Id) | SetLimits(entries: int, bytes: int)

  /** The buffer a call will hand out or has handed out. */
  function Owed(p: Phase): Option<Buffer> {
    match p
    case Missed(_, _) => None
    case Encoded(_, _, clone) => Some(clone)
    case Returned(_, result) => result
  }

  /** A call's buffers are its own: the fresh one in flight, the caller's copy encoded from an image of its key. */
  predicate Backed(hash: Image -> Key, size: Image -> int, fate: map<Buffer, Fate>, source: map<Buffer, Image>,
          p: Phase) {
    && (p.Encoded? ==>
       p.emb in fate && p.emb in source && fate[p.emb] == InFlight && source[p.emb] == p.image && size(p.image) > 0)
    && (Owed(p).Some? ==>
          var b := Owed(p).value;
          b in fate && b in source && fate[b] == Given && hash(source[b]) == hash(p.image))
  }

  /** The calls share no buffer with this one. */
  predicate Apart(p: Phase, phases: map<Id, Phase>) {
    forall i :: i in phases ==>
      && (p.Encoded? && phases[i].Encoded? ==> p.emb != phases[i].emb)
      && (Owed(p).Some? ==> Owed(phases[i]) != Owed(p))
  }

  ghost predicate Separate(phases: map<Id, Phase>) {
    forall i :: i in phases ==> Apart(phases[i], phases - {i})
  }

  /** Every buffer in flight is loose or belongs to a call. */
  ghost predicate Accounted(fate: map<Buffer, Fate>, phases: map<Id, Phase>, loose: set<Buffer>) {
    forall b ::
        b in fate && fate[b] == InFlight && b !in loose ==>
            exists i :: i in phases && phases[i].Encoded? && phases[i].emb == b
  }

  ghost predicate AllBacked(hash: Image -> Key, size: Image -> int, w: World, phases: map<Id, Phase>) {
    forall i :: i in phases ==> Backed(hash, size, w.fate, w.source, phases[i])
  }

  /** The calls stand by their buffers; of those in flight only the loose ones belong to none. */
  ghost predicate Fine(hash: Image -> Key, size: Image -> int, w: World, phases: map<Id, Phase>, loose: set<Buffer>) {
    AllBacked(hash, size, w, phases) && Separate(phases) && Accounted(w.fate, phases, loose)
  }

  /** From one moment to a later one: no buffer is lost, what was freed or handed out stays so, and a cached buffer
      can only be freed. */
  ghost predicate Follows(w: World, w': World) {
    forall b :: b in w.fate ==>
      && b in w'.fate && b in w.source && b in w'.source && w'.source[b] == w.source[b]
      && (w'.fate[b] == w.fate[b] || w.fate[b] == InFlight || (w.fate[b] == Cached && w'.fate[b] == Freed))
  }

  lemma FollowsChain(a: World, b: World, c: World)
    requires Follows(a, b) && Follows(b, c)
    ensures Follows(a, c)
  {}

  lemma FollowsSelf(w: World)
    requires w.fate.Keys == w.source.Keys
    ensures Follows(w, w)
  {}

  lemma FollowsRespects(w: World, w': World, mine: set<Buffer>)
    requires Respects(w, w', mine)
    ensures Follows(w, w')
  {}

  lemma FollowsAllocation(w: World, w': World, b: Buffer, f: Fate, image: Image)
    requires w.fate.Keys == w.source.Keys && b !in w.fate && w' == w.(fate := w.fate[b := f],
                                                                      source := w.source[b := image])
    ensures Follows(w, w')
  {}

  lemma FollowsRelease(w: World, emb: Buffer)
    requires w.fate.Keys == w.source.Keys && emb in w.fate && w.fate[emb] == InFlight
    ensures Follows(w, w.(fate := w.fate[emb := Freed]))
  {}

  /** What a call returned it has returned, and none goes back. */
  ghost predicate Answers(phases: map<Id, Phase>, phases': map<Id, Phase>) {
    forall i :: i in phases ==>
      && i in phases' && (phases[i].Returned? ==> phases'[i] == phases[i])
      && (phases[i].Encoded? ==> !phases'[i].Missed?)
  }

  /** A call that was begun is there; one that was then encoded has not just missed; and one that was inserted after
      that has returned. */
  ghost predicate Brought(schedule: seq<Move>, phases: map<Id, Phase>) {
    && (forall i :: 0 <= i < |schedule| && schedule[i].Begin? ==> schedule[i].id in phases)
    && (forall i, j :: 0 <= i < j < |schedule| && Encodes(schedule, i, j) ==>
          schedule[i].id in phases && !phases[schedule[i].id].Missed?)
    && (forall i, j, k :: 0 <= i < j < k < |schedule| && Encodes(schedule, i, j) && Inserts(schedule, j, k) ==>
          schedule[i].id in phases && phases[schedule[i].id].Returned?)
  }

  predicate Encodes(schedule: seq<Move>, i: nat, j: nat)
    requires i < |schedule| && j < |schedule|
  {
    schedule[i].Begin? && schedule[j] == Encode(schedule[i].id)
  }

  predicate Inserts(schedule: seq<Move>, j: nat, k: nat)
    requires j < |schedule| && k < |schedule|
  {
    schedule[j].Encode? && schedule[k] == Insert(schedule[j].id)
  }

  lemma OneMove(schedule: seq<Move>, m: Move, phases: map<Id, Phase>, phases': map<Id, Phase>)
    requires Brought(schedule, phases) && Answers(phases, phases')
    requires m.Begin? ==> m.id in phases'
    requires m.Encode? && m.id in phases ==> !phases'[m.id].Missed?
    requires m.Insert? && m.id in phases && !phases[m.id].Missed? ==> phases'[m.id].Returned?
    ensures Brought(schedule + [m], phases')
  {
    var all := schedule + [m];
    assert forall i :: 0 <= i < |schedule| ==> all[i] == schedule[i];
    assert all[|schedule|] == m;
    forall i, j | 0 <= i < j < |all| && Encodes(all, i, j)
      ensures all[i].id in phases' && !phases'[all[i].id].Missed?
    {
      assert j < |schedule| ==> Encodes(schedule, i, j);
    }
    forall i, j, k | 0 <= i < j < k < |all| && Encodes(all, i, j) && Inserts(all, j, k)
      ensures all[i].id in phases' && phases'[all[i].id].Returned?
    {
      assert Encodes(schedule, i, j);
      assert k < |schedule| ==> Inserts(schedule, j, k);
    }
  }

  lemma NothingBrought(phases: map<Id, Phase>)
    ensures Brought([], phases)
  {}

  class Calls {
    const cache: ImageEncoder
    var phases: map<Id, Phase>

    ghost predicate Valid()
      reads this, cache
    {
      cache.Valid() && Fine(cache.hash, cache.size, cache.Now(), phases, {})
    }

    constructor (cache: ImageEncoder)
      requires cache.Valid() && cache.fate == map[]
      ensures Valid() && this.cache == cache && phases == map[]
    {
      hide ImageEncoder.Valid;
      this.cache := cache;
      phases := map[];
    }

    /** A call starts: the lookup. */
    method Begin(id: Id, image: Image, copies: bool)
      requires Valid() && id !in phases
      modifies this, cache
      ensures Valid() && id in phases && phases == old(phases)[id := phases[id]] && phases[id].image == image
      ensures phases[id].Missed? || phases[id].Returned?
      ensures phases[id].Returned? <==> cache.hash(image) in old(cache.entries)
      ensures phases[id].Returned? ==>
              (phases[id].result.Some? <==> copies) && cache.order == InFront(old(cache.order), cache.hash(image))
      ensures phases[id].Missed? ==> phases[id].budget == cache.maxBytes && cache.Now() == old(cache.Now())
      ensures Follows(old(cache.Now()), cache.Now())
    {
      hide ImageEncoder.Valid, Fine, Follows, Respects;
      ghost var was := cache.Now();
      var hit, clone, budget := cache.Lookup(image, copies);
      var p := if hit then Returned(image, clone) else Missed(image, budget);
      FollowsRespects(was, cache.Now(), {});
      Looked(cache.hash, cache.size, was, cache.Now(), phases, p);
      Joins(cache.hash, cache.size, cache.Now(), phases, id, p, {});
      phases := phases[id := p];
    }

    /** The unlocked encoding of a call that missed, up to the insertion. */
    method Encode(id: Id, works: bool, copies: bool)
      requires Valid() && id in phases && phases[id].Missed?
      modifies this, cache
      ensures Valid() && id in phases && phases == old(phases)[id := phases[id]]
      ensures phases[id].image == old(phases[id].image)
      ensures Outcome(phases[id], cache.size, old(phases[id].budget), works, copies)
      ensures Follows(old(cache.Now()), cache.Now())
    {
      hide ImageEncoder.Valid, Fine, Backed, Apart, Follows;
      ghost var was, others := cache.Now(), phases - {id};
      Leaves(cache.hash, cache.size, was, phases, id);
      var p := EncodeUnlocked(phases[id].image, phases[id].budget, works, copies, others);
      Joins(cache.hash, cache.size, cache.Now(), others, id, p, if p.Encoded? then {p.emb} else {});
      assert others[id := p] == phases[id := p];
      phases := phases[id := p];
    }

    /** How the encoding of an image ends when the library can encode it, or copy the buffer, or not. */
    static predicate Outcome(p: Phase, size: Image -> int, budget: int, works: bool, copies: bool) {
      var cacheable := 0 < size(p.image) <= budget;
      && (p.Encoded? <==> works && cacheable && copies)
      && (!p.Encoded? ==> p.Returned? && (p.result.Some? <==> works && !cacheable))
    }

    /** What a call does without the lock: too large an image is handed out as encoded, another is also copied. */
    method EncodeUnlocked(image: Image, budget: int, works: bool, copies: bool, ghost others: map<Id, Phase>)
        returns (p: Phase)
      requires cache.Valid() && Fine(cache.hash, cache.size, cache.Now(), others, {})
      modifies cache
      ensures cache.Valid() && p.image == image && Outcome(p, cache.size, budget, works, copies)
      ensures Fine(cache.hash, cache.size, cache.Now(), others, if p.Encoded? then {p.emb} else {})
      ensures Backed(cache.hash, cache.size, cache.fate, cache.source, p) && Apart(p, others)
      ensures Follows(old(cache.Now()), cache.Now())
    {
      hide ImageEncoder.Valid, Fine, Apart, Backed, Follows;
      ghost var was := cache.Now();
      cache.KeysAgree();
      FollowsSelf(was);
      NothingOwed(image, others);
      p := Returned(image, None);
      NothingBacked(cache.hash, cache.size, was, p);
      if !works {
        return;
      }
      if cache.size(image) <= 0 || cache.size(image) > budget {
        var emb := cache.Allocate(image, Given);
        FollowsAllocation(was, cache.Now(), emb, Given, image);
        p := Returned(image, Some(emb));
        Allocated(cache.hash, cache.size, was, emb, Given, image, others, {});
        HandedOut(cache.hash, cache.size, was, cache.Now(), emb, image, others);
        return;
      }
      p := EncodeAndCopy(image, copies, others);
    }

    /** A buffer to cache, and the caller's copy of it, unless the library cannot copy. */
    method EncodeAndCopy(image: Image, copies: bool, ghost others: map<Id, Phase>) returns (p: Phase)
      requires cache.Valid() && Fine(cache.hash, cache.size, cache.Now(), others, {}) && cache.size(image) > 0
      modifies cache
      ensures cache.Valid() && p.image == image
      ensures if copies then p.Encoded? else p == Returned(image, None)
      ensures Fine(cache.hash, cache.size, cache.Now(), others, if p.Encoded? then {p.emb} else {})
      ensures Backed(cache.hash, cache.size, cache.fate, cache.source, p) && Apart(p, others)
      ensures Follows(old(cache.Now()), cache.Now())
    {
      hide ImageEncoder.Valid, Fine, Apart, Backed, Follows;
      ghost var was := cache.Now();
      cache.KeysAgree();
      var emb := cache.Allocate(image, InFlight);
      FollowsAllocation(was, cache.Now(), emb, InFlight, image);
      Allocated(cache.hash, cache.size, was, emb, InFlight, image, others, {});
      assert {} + {emb} == {emb};
      ghost var mid := cache.Now();
      cache.KeysAgree();
      if !copies {
        NotTheirs(cache.hash, cache.size, was, others, emb);
        cache.Release(emb);
        FollowsRelease(mid, emb);
        FollowsChain(was, mid, cache.Now());
        Dropped(cache.hash, cache.size, mid, emb, others);
        NothingOwed(image, others);
        NothingBacked(cache.hash, cache.size, cache.Now(), Returned(image, None));
        return Returned(image, None);
      }
      var clone := cache.Allocate(image, Given);
      FollowsAllocation(mid, cache.Now(), clone, Given, image);
      FollowsChain(was, mid, cache.Now());
      p := Encoded(image, emb, clone);
      Allocated(cache.hash, cache.size, mid, clone, Given, image, others, {emb});
      Both(cache.hash, cache.size, was, cache.Now(), emb, clone, image, others);
    }

    /** The insertion; the caller gets its copy whether or not the fresh buffer was cached. */
    method Insert(id: Id)
      requires Valid() && id in phases && phases[id].Encoded?
      modifies this, cache
      ensures Valid() && phases == old(phases)[id := Returned(old(phases[id].image), Some(old(phases[id].clone)))]
      ensures var emb, image := old(phases[id].emb), old(phases[id].image);
              && emb in cache.fate && (cache.fate[emb] == Cached || cache.fate[emb] == Freed)
              && (cache.fate[emb] == Cached <==> cache.hash(image) !in old(cache.entries) &&
                                                 old(cache.maxEntries) > 0 && cache.size(image) <= old(cache.maxBytes))
              && (cache.fate[emb] == Cached ==>
                 cache.order == [cache.hash(image)] + EvictDown(old(cache.Now()), 1, cache.size(image)).order)
      ensures Follows(old(cache.Now()), cache.Now())
    {
      hide ImageEncoder.Valid, Fine, Respects, Follows;
      var p := phases[id];
      ghost var was, others := cache.Now(), phases - {id};
      Leaves(cache.hash, cache.size, was, phases, id);
      cache.Insert(p.image, p.emb);
      FollowsRespects(was, cache.Now(), {p.emb});
      Inserted(cache.hash, cache.size, was, cache.Now(), others, p);
      var r := Returned(p.image, Some(p.clone));
      Joins(cache.hash, cache.size, cache.Now(), others, id, r, {});
      assert others[id := r] == phases[id := r];
      phases := phases[id := r];
    }

    method Resize(entries: int, bytes: int)
      requires Valid()
      modifies cache
      ensures Valid() && cache.maxEntries == entries && cache.maxBytes == bytes
      ensures Follows(old(cache.Now()), cache.Now())
    {
      hide ImageEncoder.Valid, Fine, Respects, Follows;
      ghost var was := cache.Now();
      cache.SetLimits(entries, bytes);
      FollowsRespects(was, cache.Now(), {});
      Carries(cache.hash, cache.size, was, cache.Now(), phases, {}, {}, {});
    }

    /** Any schedule of calls and resizes, a move that does not apply being skipped. Throughout, the cache is sound and
        within its limits; what was freed or handed out stays so; and a call that returned keeps its answer, a buffer
        of its own, encoded from an image of the key it asked for. */
    method Run(schedule: seq<Move>)
      requires Valid()
      modifies this, cache
      ensures Valid() && Follows(old(cache.Now()), cache.Now()) && Answers(old(phases), phases)
      ensures Brought(schedule, phases)
    {
      hide ImageEncoder.Valid, Fine, Follows, Brought;
      ghost var start := cache.Now();
      cache.KeysAgree();
      FollowsSelf(start);
      NothingBrought(phases);
      assert schedule[..0] == [];
      var k := 0;
      while k < |schedule|
        invariant 0 <= k <= |schedule| && Valid() && Follows(start, cache.Now()) && Answers(old(phases), phases)
        invariant Brought(schedule[..k], phases)
        decreases |schedule| - k
      {
        ghost var was, calls := cache.Now(), phases;
        match schedule[k] {
        case Begin(id, image) =>
          if id !in phases {
            var copies: bool := *;
            Begin(id, image, copies);
          }
        case Encode(id) =>
          if id in phases && phases[id].Missed? {
            var works: bool, copies: bool := *, *;
            Encode(id, works, copies);
          }
        case Insert(id) =>
          if id in phases && phases[id].Encoded? {
            Insert(id);
          }
        case SetLimits(entries, bytes) => Resize(entries, bytes);
        }
        cache.KeysAgree();
        FollowsSelf(cache.Now());
        FollowsChain(start, was, cache.Now());
        OneMove(schedule[..k], schedule[k], calls, phases);
        assert schedule[..k + 1] == schedule[..k] + [schedule[k]];
        k := k + 1;
      }
      assert schedule[..k] == schedule;
    }

    /** When no call is under way, every buffer is cached, freed or handed out. */
    lemma Conserved()
      requires Valid() && forall i :: i in phases ==> !phases[i].Encoded?
      ensures forall b ::
              b in cache.fate ==> cache.fate[b] == Cached || cache.fate[b] == Freed || cache.fate[b] == Given
    {
      hide ImageEncoder.Valid;
      assert forall b :: b in cache.fate ==> cache.fate[b] != InFlight;
    }

    /** A call that returned a buffer holds one no other call has, of an image with the key it asked for: if no two
        images share a key, what encoding that image gives. */
    lemma Answered(id: Id)
      requires Valid() && id in phases && phases[id].Returned? && phases[id].result.Some?
      ensures var b := phases[id].result.value;
              && b in cache.fate && b in cache.source && cache.fate[b] == Given &&
                 cache.hash(cache.source[b]) == cache.hash(phases[id].image)
              && ((forall x, y :: cache.hash(x) == cache.hash(y) ==> x == y) ==> cache.source[b] == phases[id].image)
              && forall j :: j in phases && j != id && phases[j].Returned? ==> phases[j].result != Some(b)
    {
      hide ImageEncoder.Valid;
      assert Backed(cache.hash, cache.size, cache.fate, cache.source, phases[id]);
      assert Apart(phases[id], phases - {id});
      assert forall j :: j in phases && j != id ==> j in phases - {id};
    }
  }

  lemma Leaves(hash: Image -> Key, size: Image -> int, w: World, phases: map<Id, Phase>, id: Id)
    requires Fine(hash, size, w, phases, {}) && id in phases
    ensures var p := phases[id];
            && Fine(hash, size, w, phases - {id}, if p.Encoded? then {p.emb} else {})
            && Backed(hash, size, w.fate, w.source, p) && Apart(p, phases - {id})
  {
    hide Backed, Apart;
    assert Separate(phases - {id}) by {
      var others := phases - {id};
      forall i | i in others ensures Apart(others[i], others - {i}) {
        ApartFewer(phases[i], phases - {i}, others - {i});
      }
    }
    assert Accounted(w.fate, phases - {id}, if phases[id].Encoded? then {phases[id].emb} else {}) by {
      var others := phases - {id};
      var loose := if phases[id].Encoded? then {phases[id].emb} else {};
      forall b | b in w.fate && w.fate[b] == InFlight && b !in loose
        ensures exists i :: i in others && others[i].Encoded? && others[i].emb == b
      {
        var i :| i in phases && phases[i].Encoded? && phases[i].emb == b;
        assert i in others;
      }
    }
  }

  lemma ApartFewer(p: Phase, a: map<Id, Phase>, b: map<Id, Phase>)
    requires Apart(p, a) && forall i :: i in b ==> i in a && b[i] == a[i]
    ensures Apart(p, b)
  {}

  lemma Joins(hash: Image -> Key, size: Image -> int, w: World, others: map<Id, Phase>, id: Id, p: Phase,
          loose: set<Buffer>)
    requires Fine(hash, size, w, others, loose) && id !in others && Backed(hash, size, w.fate, w.source, p) &&
             Apart(p, others)
    requires loose <= if p.Encoded? then {p.emb} else {}
    ensures Fine(hash, size, w, others[id := p], {})
  {
    hide Backed;
    var all := others[id := p];
    JoinsApart(others, id, p);
    forall b | b in w.fate && w.fate[b] == InFlight ensures exists i :: i in all && all[i].Encoded? && all[i].emb == b {
      if b in loose {
        assert all[id].Encoded? && all[id].emb == b;
      } else {
        var i :| i in others && others[i].Encoded? && others[i].emb == b;
        assert i in all && all[i] == others[i];
      }
    }
  }

  lemma JoinsApart(others: map<Id, Phase>, id: Id, p: Phase)
    requires Separate(others) && id !in others && Apart(p, others)
    ensures Separate(others[id := p])
  {
    var all := others[id := p];
    forall i | i in all ensures Apart(all[i], all - {i}) {
      if i == id {
        assert all - {i} == others;
      } else {
        assert Apart(others[i], others - {i});
        forall j | j in all - {i}
          ensures (all[i].Encoded? && all[j].Encoded? ==> all[i].emb != all[j].emb) &&
                  (Owed(all[i]).Some? ==> Owed(all[j]) != Owed(all[i]))
        {
          if j != id {
            assert j in others - {i};
          }
        }
      }
    }
  }

  /** The other calls stand by their buffers whatever one call's step did. */
  lemma Carries(hash: Image -> Key, size: Image -> int, w: World, w': World, others: map<Id, Phase>,
          loose: set<Buffer>, mine: set<Buffer>, loose': set<Buffer>)
    requires Fine(hash, size, w, others, loose) && Respects(w, w', mine)
    requires forall i :: i in others && others[i].Encoded? ==> others[i].emb !in mine
    requires forall b :: b in w'.fate && w'.fate[b] == InFlight ==> b in loose' || (b in w.fate && b !in loose)
    ensures Fine(hash, size, w', others, loose')
  {
    forall i | i in others ensures Backed(hash, size, w'.fate, w'.source, others[i]) {
      assert Backed(hash, size, w.fate, w.source, others[i]);
    }
    forall b | b in w'.fate && w'.fate[b] == InFlight && b !in loose'
      ensures exists i :: i in others && others[i].Encoded? && others[i].emb == b
    {
      assert w.fate[b] == InFlight;
    }
  }

  lemma Looked(hash: Image -> Key, size: Image -> int, w: World, w': World, others: map<Id, Phase>, p: Phase)
    requires Fine(hash, size, w, others, {}) && Respects(w, w', {}) && (p.Missed? || p.Returned?)
    requires p.Missed? ==> w' == w
    requires p.Returned? && p.result == None ==> w'.fate == w.fate
    requires p.Returned? && p.result.Some? ==>
      var b := p.result.value;
      b !in w.fate && w'.fate == w.fate[b := Given] && b in w'.source && hash(w'.source[b]) == hash(p.image)
    ensures Fine(hash, size, w', others, {}) && Backed(hash, size, w'.fate, w'.source, p) && Apart(p, others)
  {
    Carries(hash, size, w, w', others, {}, {}, {});
    OwedThere(hash, size, w, others);
  }

  lemma OwedThere(hash: Image -> Key, size: Image -> int, w: World, others: map<Id, Phase>)
    requires AllBacked(hash, size, w, others)
    ensures forall i :: i in others && Owed(others[i]).Some? ==> Owed(others[i]).value in w.fate
    ensures forall i :: i in others && others[i].Encoded? ==> others[i].emb in w.fate
  {
    forall i | i in others
      ensures (Owed(others[i]).Some? ==> Owed(others[i]).value in w.fate) &&
              (others[i].Encoded? ==> others[i].emb in w.fate)
    {
      assert Backed(hash, size, w.fate, w.source, others[i]);
    }
  }

  lemma NothingOwed(image: Image, others: map<Id, Phase>)
    ensures Apart(Returned(image, None), others)
  {}

  lemma Allocated(hash: Image -> Key, size: Image -> int, w: World, b: Buffer, f: Fate, image: Image, others: map<Id,
          Phase>, loose: set<Buffer>)
    requires Fine(hash, size, w, others, loose) && b !in w.fate && w.fate.Keys == w.source.Keys && f != Cached
    ensures Fine(hash, size, w.(fate := w.fate[b := f], source := w.source[b := image]), others,
                 if f == InFlight then loose + {b} else loose)
  {
    var t := w.(fate := w.fate[b := f], source := w.source[b := image]);
    forall i | i in others ensures Backed(hash, size, t.fate, t.source, others[i]) {
      assert Backed(hash, size, w.fate, w.source, others[i]);
    }
  }

  lemma NothingBacked(hash: Image -> Key, size: Image -> int, w: World, p: Phase)
    requires p.Returned? && p.result == None
    ensures Backed(hash, size, w.fate, w.source, p)
  {}

  /** A fresh buffer handed straight out is nobody else's. */
  lemma HandedOut(hash: Image -> Key, size: Image -> int, w: World, w': World, b: Buffer, image: Image,
          others: map<Id, Phase>)
    requires Fine(hash, size, w, others, {})
    requires b !in w.fate && w'.fate == w.fate[b := Given] && w'.source == w.source[b := image]
    ensures var p := Returned(image, Some(b)); Backed(hash, size, w'.fate, w'.source, p) && Apart(p, others)
  {
    OwedThere(hash, size, w, others);
  }

  lemma Both(hash: Image -> Key, size: Image -> int, w: World, w': World, emb: Buffer, clone: Buffer, image: Image,
          others: map<Id, Phase>)
    requires Fine(hash, size, w, others, {}) && emb !in w.fate && clone !in w.fate && emb != clone && size(image) > 0
    requires w'.fate == w.fate[emb := InFlight][clone := Given] && w'.source == w.source[emb := image][clone := image]
    ensures var p := Encoded(image, emb, clone); Backed(hash, size, w'.fate, w'.source, p) && Apart(p, others)
  {
    OwedThere(hash, size, w, others);
  }

  lemma NotTheirs(hash: Image -> Key, size: Image -> int, w: World, others: map<Id, Phase>, emb: Buffer)
    requires Fine(hash, size, w, others, {}) && emb !in w.fate
    ensures forall i :: i in others && others[i].Encoded? ==> others[i].emb != emb
  {
    OwedThere(hash, size, w, others);
  }

  lemma Dropped(hash: Image -> Key, size: Image -> int, w: World, emb: Buffer, others: map<Id, Phase>)
    requires Fine(hash, size, w, others, {emb}) && emb in w.fate && w.fate[emb] == InFlight &&
             w.fate.Keys == w.source.Keys
    requires forall i :: i in others && others[i].Encoded? ==> others[i].emb != emb
    ensures Fine(hash, size, w.(fate := w.fate[emb := Freed]), others, {})
  {
    Released(w, emb, {emb});
    Carries(hash, size, w, w.(fate := w.fate[emb := Freed]), others, {emb}, {emb}, {});
  }

  lemma Inserted(hash: Image -> Key, size: Image -> int, w: World, w': World, others: map<Id, Phase>, p: Phase)
    requires p.Encoded? && Fine(hash, size, w, others, {p.emb}) && Backed(hash, size, w.fate, w.source, p) &&
             Apart(p, others)
    requires Respects(w, w', {p.emb}) && w'.fate.Keys == w.fate.Keys && p.emb in w'.fate && w'.fate[p.emb] != InFlight
    ensures Fine(hash, size, w', others, {})
    ensures var r := Returned(p.image, Some(p.clone)); Backed(hash, size, w'.fate, w'.source, r) && Apart(r, others)
  {
    Carries(hash, size, w, w', others, {p.emb}, {p.emb}, {});
  }
}
