/** Sixty-four slot allocators, one for each multiple of eight bytes, and the system for anything larger. */
module HashBuckets {
  import opened PoolSpec
  import opened PoolTheorems
  import opened MemoryPools

  const POOLS: nat := 64
  const MAX_SLOT: nat := 512
  const BLOCK: nat := 4096

  function Class(size: nat): (k: nat)
    requires 0 < size <= MAX_SLOT
    ensures k < POOLS
  {
    (size + 7) / 8 - 1
  }

  /** The smallest multiple of eight that holds the request. */
  lemma ClassFits(size: nat)
    requires 0 < size <= MAX_SLOT
    ensures Class(size) < POOLS && size <= 8 * (Class(size) + 1) < size + 8
  {
  }

  // owned maps every pointer handed out and not yet freed to the size it was asked for.
  datatype Buckets = Buckets(pools: seq<Pool>, owned: map<nat, nat>)

  predicate Shaped(s: Buckets) {
    |s.pools| == POOLS && forall k :: 0 <= k < POOLS ==> s.pools[k].slotSize == 8 * (k + 1) && s.pools[k].blockSize == BLOCK
  }

  function Use(s: Buckets, size: nat, room: nat): (Buckets, nat)
    requires Shaped(s)
  {
    if size == 0 then (s, 0)
    else if size > MAX_SLOT then (s.(owned := s.owned[room := size]), room)
    else
      var (pool, p) := Alloc(s.pools[Class(size)], room);
      (Buckets(s.pools[Class(size) := pool], s.owned[p := size]), p)
  }

  function Free(s: Buckets, p: nat, size: nat): Buckets
    requires Shaped(s)
  {
    if p == 0 || size == 0 then s
    else if size > MAX_SLOT then s.(owned := s.owned - {p})
    else Buckets(s.pools[Class(size) := Dealloc(s.pools[Class(size)], p)], s.owned - {p})
  }

  predicate Apart(a: nat, n: nat, b: nat, m: nat) {
    a + n <= b || b + m <= a
  }

  // What operator new returns lies apart from every block and every large piece still held.
  ghost predicate Vacant(s: Buckets, room: nat, size: nat) {
    && 0 < room && room % 8 == 0 && room + size < WORD
    && (forall k, i :: 0 <= k < |s.pools| && 0 <= i < |s.pools[k].blocks| ==> Apart(room, size, s.pools[k].blocks[i], BLOCK))
    && (forall p :: p in s.owned && s.owned[p] > MAX_SLOT ==> Apart(room, size, p, s.owned[p]))
  }

  datatype Op = UseMemory(size: nat, room: nat) | FreeMemory(p: nat, size: nat)

  // A request brings the address the system would give; a free names a pointer held, with its size.
  ghost predicate Permitted(s: Buckets, op: Op)
    requires Shaped(s)
  {
    match op
    case UseMemory(size, room) =>
      && (size > MAX_SLOT ==> Vacant(s, room, size))
      && (0 < size <= MAX_SLOT && s.pools[Class(size)].free == [] && NeedsBlock(s.pools[Class(size)]) ==> Vacant(s, room, BLOCK))
    case FreeMemory(p, size) => p == 0 || (p in s.owned && s.owned[p] == size)
  }

  function Step(s: Buckets, op: Op): Buckets
    requires Shaped(s)
  {
    match op
    case UseMemory(size, room) => Use(s, size, room).0
    case FreeMemory(p, size) => Free(s, p, size)
  }

  ghost predicate PermittedRun(s: Buckets, ops: seq<Op>)
    requires Shaped(s)
    decreases |ops|, 1
  {
    ops == [] ||
    var n := |ops| - 1;
    PermittedRun(s, ops[..n]) && Permitted(Run(s, ops[..n]), ops[n])
  }

  function Run(s: Buckets, ops: seq<Op>): (t: Buckets)
    requires Shaped(s)
    ensures Shaped(t)
    decreases |ops|, 0
  {
    if ops == [] then s
    else
      var n := |ops| - 1;
      Step(Run(s, ops[..n]), ops[n])
  }

  function Empty(): Buckets {
    Buckets(seq(POOLS, k requires 0 <= k => PoolSpec.Init(8 * (k + 1), BLOCK)), map[])
  }

  // ----- what every run keeps -----

  ghost predicate PoolsGood(s: Buckets) {
    Shaped(s) && forall k :: 0 <= k < POOLS ==> Good(s.pools[k])
  }

  // Blocks of different pools lie apart.
  ghost predicate PoolsApart(s: Buckets) {
    forall k, l, i, j :: 0 <= k < l < |s.pools| && 0 <= i < |s.pools[k].blocks| && 0 <= j < |s.pools[l].blocks| ==>
      Apart(s.pools[k].blocks[i], BLOCK, s.pools[l].blocks[j], BLOCK)
  }

  // Small pieces are the live slots of their class; large ones lie apart from the blocks and from each other.
  ghost predicate SmallOwned(s: Buckets)
    requires Shaped(s)
  {
    && (forall p :: p in s.owned && s.owned[p] <= MAX_SLOT ==> 0 < s.owned[p] && p in s.pools[Class(s.owned[p])].live)
    && (forall k, p :: 0 <= k < POOLS && p in s.pools[k].live ==>
          p in s.owned && 0 < s.owned[p] <= MAX_SLOT && Class(s.owned[p]) == k)
  }

  ghost predicate LargeOwned(s: Buckets) {
    && (forall p, k, i :: p in s.owned && s.owned[p] > MAX_SLOT && 0 <= k < |s.pools| && 0 <= i < |s.pools[k].blocks| ==>
          Apart(p, s.owned[p], s.pools[k].blocks[i], BLOCK))
    && (forall p, q :: p in s.owned && q in s.owned && p != q && s.owned[p] > MAX_SLOT && s.owned[q] > MAX_SLOT ==>
          Apart(p, s.owned[p], q, s.owned[q]))
    && 0 !in s.owned
  }

  ghost predicate Sound(s: Buckets) {
    PoolsGood(s) && PoolsApart(s) && SmallOwned(s) && LargeOwned(s)
  }

  // The block a live slot lies in.
  lemma Home(s: Buckets, k: nat, p: nat) returns (i: nat)
    requires PoolsGood(s) && k < POOLS && p in s.pools[k].live
    ensures i < |s.pools[k].blocks|
    ensures s.pools[k].blocks[i] < p && p + 8 * (k + 1) <= s.pools[k].blocks[i] + BLOCK
  {
    var b;
    i, b := SlotInBlock(s.pools[k], p);
  }

  /** No two pieces held at the same time overlap, whatever their sizes and pools. */
  lemma OwnedDisjoint(s: Buckets, p: nat, q: nat)
    requires Sound(s) && p in s.owned && q in s.owned && p != q
    ensures Apart(p, s.owned[p], q, s.owned[q])
  {
    hide Good;
    if s.owned[p] <= MAX_SLOT && s.owned[q] <= MAX_SLOT {
      SmallDisjoint(s, p, q);
    } else if s.owned[p] <= MAX_SLOT {
      SmallLarge(s, p, q);
    } else if s.owned[q] <= MAX_SLOT {
      SmallLarge(s, q, p);
    }
  }

  lemma SmallDisjoint(s: Buckets, p: nat, q: nat)
    requires PoolsGood(s) && PoolsApart(s) && SmallOwned(s)
    requires p in s.owned && q in s.owned && p != q && s.owned[p] <= MAX_SLOT && s.owned[q] <= MAX_SLOT
    ensures Apart(p, s.owned[p], q, s.owned[q])
  {
    hide Good;
    var k, l := Class(s.owned[p]), Class(s.owned[q]);
    ClassFits(s.owned[p]);
    ClassFits(s.owned[q]);
    if k == l {
      if p < q { SlotsDisjoint(s.pools[k], p, q); } else { SlotsDisjoint(s.pools[k], q, p); }
    } else {
      var i := Home(s, k, p);
      var j := Home(s, l, q);
      assert Apart(s.pools[k].blocks[i], BLOCK, s.pools[l].blocks[j], BLOCK)
          || Apart(s.pools[l].blocks[j], BLOCK, s.pools[k].blocks[i], BLOCK);
    }
  }

  lemma SmallLarge(s: Buckets, p: nat, q: nat)
    requires PoolsGood(s) && SmallOwned(s) && LargeOwned(s)
    requires p in s.owned && q in s.owned && s.owned[p] <= MAX_SLOT < s.owned[q]
    ensures Apart(p, s.owned[p], q, s.owned[q])
  {
    hide Good;
    ClassFits(s.owned[p]);
    var i := Home(s, Class(s.owned[p]), p);
  }

  // ----- every step keeps them sound -----

  // The pools after pool k was replaced; its blocks are the old ones, or the old ones and room.
  ghost predicate Grown(s: Buckets, k: nat, pool: Pool, room: nat)
    requires Shaped(s) && k < POOLS
  {
    && pool.slotSize == 8 * (k + 1) && pool.blockSize == BLOCK
    && (pool.blocks == s.pools[k].blocks || (pool.blocks == [room] + s.pools[k].blocks && Vacant(s, room, BLOCK)))
  }

  lemma GrownApart(s: Buckets, k: nat, pool: Pool, room: nat)
    requires Shaped(s) && PoolsApart(s) && k < POOLS && Grown(s, k, pool, room)
    ensures PoolsApart(s.(pools := s.pools[k := pool]))
  {
    hide Vacant;
    var t := s.(pools := s.pools[k := pool]);
    forall a, b, i, j | 0 <= a < b < |t.pools| && 0 <= i < |t.pools[a].blocks| && 0 <= j < |t.pools[b].blocks|
      ensures Apart(t.pools[a].blocks[i], BLOCK, t.pools[b].blocks[j], BLOCK)
    {
      var i2 := OldBlock(s, k, pool, room, a, i);
      var j2 := OldBlock(s, k, pool, room, b, j);
      if Vacant(s, room, BLOCK) { VacantApart(s, room, a, i2, b, j2); }
    }
  }

  lemma VacantApart(s: Buckets, room: nat, a: nat, i: int, b: nat, j: int)
    requires Vacant(s, room, BLOCK) && a < |s.pools| && b < |s.pools|
    ensures 0 <= i < |s.pools[a].blocks| ==> Apart(room, BLOCK, s.pools[a].blocks[i], BLOCK)
    ensures 0 <= j < |s.pools[b].blocks| ==> Apart(room, BLOCK, s.pools[b].blocks[j], BLOCK)
  {
  }

  // Where a block of the grown pools was before, if it was there.
  lemma OldBlock(s: Buckets, k: nat, pool: Pool, room: nat, a: nat, i: nat) returns (j: int)
    requires Shaped(s) && k < POOLS && Grown(s, k, pool, room) && a < POOLS && i < |s.pools[k := pool][a].blocks|
    ensures (0 <= j < |s.pools[a].blocks| && s.pools[k := pool][a].blocks[i] == s.pools[a].blocks[j])
         || (a == k && s.pools[k := pool][a].blocks[i] == room && Vacant(s, room, BLOCK))
  {
    j := if a == k && |pool.blocks| > |s.pools[k].blocks| then i - 1 else i;
  }

  lemma GrownLarge(s: Buckets, k: nat, pool: Pool, room: nat)
    requires Shaped(s) && LargeOwned(s) && k < POOLS && Grown(s, k, pool, room)
    ensures LargeOwned(s.(pools := s.pools[k := pool]))
  {
    var t := s.(pools := s.pools[k := pool]);
    forall p, a, i | p in t.owned && t.owned[p] > MAX_SLOT && 0 <= a < |t.pools| && 0 <= i < |t.pools[a].blocks|
      ensures Apart(p, t.owned[p], t.pools[a].blocks[i], BLOCK)
    {
      var j := OldBlock(s, k, pool, room, a, i);
    }
  }

  lemma AllocBlocks(s: Buckets, size: nat, room: nat)
    requires Sound(s) && 0 < size <= MAX_SLOT && Permitted(s, UseMemory(size, room))
    ensures var k := Class(size);
            var (pool, p) := Alloc(s.pools[k], room);
            && k < POOLS && Good(pool) && Grown(s, k, pool, room) && p != 0
            && p !in s.pools[k].live && pool.live == s.pools[k].live + {p}
  {
    var k := Class(size);
    ClassFits(size);
    if s.pools[k].free == [] && NeedsBlock(s.pools[k]) { VacantForPool(s, k, room); }
    hide Good, PoolsApart, SmallOwned, LargeOwned, Vacant, Available;
    PoolTheorems.StepKeeps(s.pools[k], PoolSpec.Allocate(room));
    AllocHandsOut(s.pools[k], room);
  }

  lemma VacantForPool(s: Buckets, k: nat, room: nat)
    requires Shaped(s) && k < POOLS && Vacant(s, room, BLOCK)
    ensures Available(s.pools[k], room)
  {
  }

  // A slot of pool k that is not live there is not held at all.
  lemma NewPiece(s: Buckets, k: nat, p: nat)
    requires PoolsGood(s) && PoolsApart(s) && LargeOwned(s) && k < POOLS && p in s.pools[k].live
    requires forall l, q :: 0 <= l < POOLS && l != k && q in s.pools[l].live ==> q in s.owned
    ensures forall l :: 0 <= l < POOLS && l != k ==> p !in s.pools[l].live
    ensures p in s.owned ==> s.owned[p] <= MAX_SLOT
  {
    hide Good, LargeOwned;
    var i := Home(s, k, p);
    forall l | 0 <= l < POOLS && l != k ensures p !in s.pools[l].live {
      if p in s.pools[l].live {
        var j := Home(s, l, p);
      }
    }
    NotLarge(s, k, i, p);
  }

  lemma NotLarge(s: Buckets, k: nat, i: nat, p: nat)
    requires LargeOwned(s) && k < |s.pools| && i < |s.pools[k].blocks|
    requires s.pools[k].blocks[i] < p < s.pools[k].blocks[i] + BLOCK
    ensures p in s.owned ==> s.owned[p] <= MAX_SLOT
  {
  }

  lemma UseSmallKeeps(s: Buckets, size: nat, room: nat)
    requires Sound(s) && 0 < size <= MAX_SLOT && Permitted(s, UseMemory(size, room))
    ensures Sound(Use(s, size, room).0) && Use(s, size, room).1 !in s.owned && Use(s, size, room).1 != 0
  {
    hide Good, PoolsApart, LargeOwned, SmallOwned, Alloc, Vacant, Class;
    var k := Class(size);
    var (pool, p) := Alloc(s.pools[k], room);
    AllocBlocks(s, size, room);
    GrownApart(s, k, pool, room);
    GrownLarge(s, k, pool, room);
    NotHeld(s, k, pool, p);
    OwnSmall(s.(pools := s.pools[k := pool]), p, size);
    SmallKept(s, k, pool, p, size);
  }

  lemma NotHeld(s: Buckets, k: nat, pool: Pool, p: nat)
    requires PoolsGood(s) && SmallOwned(s) && k < POOLS
    requires Good(pool) && pool.slotSize == 8 * (k + 1) && pool.blockSize == BLOCK
    requires PoolsApart(s.(pools := s.pools[k := pool])) && LargeOwned(s.(pools := s.pools[k := pool]))
    requires pool.live == s.pools[k].live + {p} && p !in s.pools[k].live
    ensures p !in s.owned
  {
    hide Good, PoolsApart, LargeOwned, Class;
    var t := s.(pools := s.pools[k := pool]);
    NewPiece(t, k, p);
    forall l | 0 <= l < POOLS ensures p !in s.pools[l].live {
      if l != k { assert t.pools[l] == s.pools[l]; }
    }
  }

  lemma OwnSmall(s: Buckets, p: nat, size: nat)
    requires Shaped(s) && PoolsApart(s) && LargeOwned(s) && p !in s.owned && p != 0 && size <= MAX_SLOT
    ensures var t := s.(owned := s.owned[p := size]); PoolsApart(t) && LargeOwned(t)
  {
  }

  lemma SmallKept(s: Buckets, k: nat, pool: Pool, p: nat, size: nat)
    requires Shaped(s) && SmallOwned(s) && k < POOLS && 0 < size <= MAX_SLOT && Class(size) == k
    requires pool.slotSize == 8 * (k + 1) && pool.blockSize == BLOCK
    requires pool.live == s.pools[k].live + {p} && p !in s.owned
    ensures SmallOwned(Buckets(s.pools[k := pool], s.owned[p := size]))
  {
    hide Class;
  }

  lemma UseLargeKeeps(s: Buckets, size: nat, room: nat)
    requires Sound(s) && size > MAX_SLOT && Vacant(s, room, size)
    ensures Sound(s.(owned := s.owned[room := size])) && room !in s.owned && room != 0
  {
    hide Good;
    forall k | 0 <= k < POOLS ensures room !in s.pools[k].live {
      if room in s.pools[k].live {
        var i := Home(s, k, room);
      }
    }
    LargeAdded(s, size, room);
    hide PoolsApart, LargeOwned, Vacant, Class;
  }

  lemma LargeAdded(s: Buckets, size: nat, room: nat)
    requires LargeOwned(s) && PoolsApart(s) && size > MAX_SLOT && Vacant(s, room, size)
    ensures var t := s.(owned := s.owned[room := size]); LargeOwned(t) && PoolsApart(t)
    ensures room in s.owned ==> s.owned[room] <= MAX_SLOT
  {
  }

  lemma FreeKeeps(s: Buckets, p: nat, size: nat)
    requires Sound(s) && p in s.owned && s.owned[p] == size
    ensures Sound(Free(s, p, size)) && Free(s, p, size).owned == s.owned - {p}
  {
    hide Good;
    if size <= MAX_SLOT {
      var k := Class(size);
      ClassFits(size);
      var pool := Dealloc(s.pools[k], p);
      PoolTheorems.StepKeeps(s.pools[k], PoolSpec.Deallocate(p));
      GrownApart(s, k, pool, 0);
      GrownLarge(s, k, pool, 0);
      SmallRemoved(s, k, pool, p);
      Disowned(s.(pools := s.pools[k := pool]), p);
    } else {
      Disowned(s, p);
      hide PoolsApart, LargeOwned, Class;
    }
  }

  lemma SmallRemoved(s: Buckets, k: nat, pool: Pool, p: nat)
    requires Shaped(s) && SmallOwned(s) && k < POOLS && p in s.owned && 0 < s.owned[p] <= MAX_SLOT && Class(s.owned[p]) == k
    requires pool.slotSize == 8 * (k + 1) && pool.blockSize == BLOCK && pool.live == s.pools[k].live - {p}
    ensures SmallOwned(Buckets(s.pools[k := pool], s.owned - {p}))
  {
    hide Class;
  }

  lemma Disowned(s: Buckets, p: nat)
    requires PoolsApart(s) && LargeOwned(s)
    ensures var t := s.(owned := s.owned - {p}); PoolsApart(t) && LargeOwned(t)
  {
  }

  lemma StepSound(s: Buckets, op: Op)
    requires Sound(s) && Permitted(s, op)
    ensures Sound(Step(s, op))
  {
    hide Sound;
    SoundIsShaped(s);
    match op
    case UseMemory(size, room) =>
      if 0 < size <= MAX_SLOT {
        UseSmallKeeps(s, size, room);
      } else if size > MAX_SLOT {
        UseLargeKeeps(s, size, room);
      }
    case FreeMemory(p, size) =>
      if p != 0 { FreeKeeps(s, p, size); }
  }

  lemma SoundIsShaped(s: Buckets)
    requires Sound(s)
    ensures Shaped(s)
  {
  }

  /** Whatever is asked for and given back, in any order and in all size classes, the pieces held never overlap. */
  lemma {:induction false} RunSound(ops: seq<Op>)
    requires PermittedRun(Empty(), ops)
    ensures Sound(Run(Empty(), ops))
  {
    hide Sound;
    if ops == [] {
      InitSound();
    } else {
      var n := |ops| - 1;
      RunSound(ops[..n]);
      StepSound(Run(Empty(), ops[..n]), ops[n]);
    }
  }

  lemma InitSound()
    ensures Sound(Empty())
  {
    hide Good;
    forall k: nat | k < POOLS ensures Good(Empty().pools[k]) {
      InitGood(8 * (k + 1), BLOCK);
    }
    assert forall k :: 0 <= k < POOLS ==> Empty().pools[k] == PoolSpec.Init(8 * (k + 1), BLOCK);
  }

  lemma ClassSized(k: nat)
    requires k < POOLS
    ensures Sized((k + 1) * 8, BLOCK) && (k + 1) * 8 % 8 == 0
  {
  }

  lemma EmptyPools()
    ensures |Empty().pools| == 64 && Empty().owned == map[]
    ensures forall k :: 0 <= k < POOLS ==> Empty().pools[k] == PoolSpec.Init(8 * (k + 1), BLOCK)
  {
  }

  lemma RunDisjoint(ops: seq<Op>, p: nat, q: nat)
    requires PermittedRun(Empty(), ops)
    requires var t := Run(Empty(), ops); p in t.owned && q in t.owned && p != q
    ensures var t := Run(Empty(), ops); Apart(p, t.owned[p], q, t.owned[q])
  {
    hide Sound;
    RunSound(ops);
    OwnedDisjoint(Run(Empty(), ops), p, q);
  }

  // ----- where a request goes -----

  /** A request of nothing gets the null pointer and changes nothing; one of more than 512 bytes gets what the system gives;
      any other gets a slot, not yet live, of the pool with the smallest slots that hold it, and no other pool changes. */
  lemma UseRoutes(s: Buckets, size: nat, room: nat)
    requires Sound(s) && Permitted(s, UseMemory(size, room))
    ensures size == 0 ==> Use(s, size, room) == (s, 0)
    ensures size > 512 ==> Use(s, size, room) == (s.(owned := s.owned[room := size]), room)
    ensures 0 < size <= 512 ==>
              var (t, p) := Use(s, size, room);
              var k := (size + 7) / 8 - 1;
              && k < 64 && s.pools[k].slotSize == 8 * (k + 1) && s.pools[k].blockSize == 4096 && size <= 8 * (k + 1) < size + 8
              && p != 0 && p !in s.pools[k].live && t.pools[k].live == s.pools[k].live + {p}
              && t.owned == s.owned[p := size]
              && |t.pools| == 64 && forall l :: 0 <= l < 64 && l != k ==> t.pools[l] == s.pools[l]
  {
    if 0 < size <= MAX_SLOT {
      ClassFits(size);
      AllocBlocks(s, size, room);
      hide Good, PoolsApart, SmallOwned, LargeOwned, Alloc, Vacant;
    }
  }

  /** A slot given back is the next one handed out for a request of its class, and then all pools are as before. */
  lemma FreeThenUse(s: Buckets, p: nat, size: nat, again: nat, room: nat)
    requires Sound(s) && p in s.owned && s.owned[p] == size <= 512
    requires 0 < again && (again + 7) / 8 == (size + 7) / 8
    ensures Use(Free(s, p, size), again, room) == (s.(owned := s.owned[p := again]), p)
  {
    OwnedIsLive(s, p);
    hide Good, PoolsApart, LargeOwned;
    var k := Class(size);
    assert Class(again) == k;
    var pool := s.pools[k];
    var freed := Dealloc(pool, p);
    assert freed.free[0] == p && freed.free[1..] == pool.free;
    assert pool.live - {p} + {p} == pool.live;
    assert Alloc(freed, room) == (pool, p);
    var u := Free(s, p, size);
    assert u.pools[k := pool] == s.pools;
    assert (s.owned - {p})[p := again] == s.owned[p := again];
  }

  // ----- the buckets as they run -----

  lemma LegalForPool(s: Buckets, size: nat, room: nat)
    requires Shaped(s) && 0 < size <= MAX_SLOT && Permitted(s, UseMemory(size, room))
    ensures PoolSpec.Legal(s.pools[Class(size)], PoolSpec.Allocate(room))
  {
    var k := Class(size);
    if s.pools[k].free == [] && NeedsBlock(s.pools[k]) { VacantForPool(s, k, room); }
  }

  lemma OwnedIsLive(s: Buckets, p: nat)
    requires Sound(s) && p in s.owned
    ensures p != 0 && 0 < s.owned[p]
    ensures s.owned[p] <= MAX_SLOT ==> p in s.pools[Class(s.owned[p])].live
  {
    hide Good, Class;
  }

  class HashBucket {
    const pools: seq<MemoryPool>
    ghost var owned: map<nat, nat>

    ghost function Models(): (m: seq<Pool>)
      reads this, pools
      ensures |m| == |pools| && forall k :: 0 <= k < |pools| ==> m[k] == pools[k].Model()
    {
      seq(|pools|, k requires 0 <= k < |pools| reads this, pools => pools[k].Model())
    }

    ghost function Model(): Buckets
      reads this, pools
    {
      Buckets(Models(), owned)
    }

    ghost predicate Valid()
      reads this, pools
    {
      && |pools| == POOLS && (forall k, l :: 0 <= k < l < POOLS ==> pools[k] != pools[l])
      && (forall k :: 0 <= k < POOLS ==> pools[k].Valid())
      && Sound(Model())
    }

    // initMemoryPool
    constructor ()
      ensures Valid() && Model() == Empty() && fresh(pools)
    {
      hide MemoryPool.Valid, MemoryPool.Model, Sound, Good, Sized, PoolSpec.Init, Empty;
      var made: seq<MemoryPool> := [];
      for i := 0 to POOLS
        invariant |made| == i && fresh(made)
        invariant forall k, l :: 0 <= k < l < i ==> made[k] != made[l]
        invariant forall k :: 0 <= k < i ==> made[k].Valid() && made[k].Model() == PoolSpec.Init(8 * (k + 1), BLOCK)
      {
        ClassSized(i);
        var pool := new MemoryPool(BLOCK, (i + 1) * 8);
        made := made + [pool];
      }
      pools := made;
      owned := map[];
      new;
      InitSound();
      EmptyPools();
      assert Model().pools == Empty().pools;
    }

    // room is what operator new returns if the system is asked.
    method UseMemory(size: nat, room: nat) returns (p: nat)
      requires Valid() && Permitted(Model(), Op.UseMemory(size, room))
      modifies this, pools
      ensures Valid() && (Model(), p) == Use(old(Model()), size, room)
      ensures forall k :: 0 <= k < POOLS ==> Untouched(old(pools[k].words), pools[k].words, old(pools[k].live), pools[k].slotSize)
    {
      hide Sound, Good, Class, Untouched, Permitted, MemoryPool.Valid;
      ghost var s := Model();
      SoundIsShaped(s);
      StepSound(s, Op.UseMemory(size, room));
      forall k | 0 <= k < POOLS ensures Untouched(pools[k].words, pools[k].words, pools[k].live, pools[k].slotSize) {
        WriteNothing(pools[k].words, pools[k].live, pools[k].slotSize);
      }
      if size <= 0 {
        return 0;
      }
      if size > MAX_SLOT {
        owned := owned[room := size];
        assert Models() == s.pools;
        return room;
      }
      LegalForPool(s, size, room);
      p := pools[Class(size)].Allocate(room);
      owned := owned[p := size];
      assert Models() == Use(s, size, room).0.pools;
    }

    method FreeMemory(p: nat, size: nat)
      requires Valid() && Permitted(Model(), Op.FreeMemory(p, size))
      modifies this, pools
      ensures Valid() && Model() == Free(old(Model()), p, size)
      ensures forall k :: 0 <= k < POOLS ==> Untouched(old(pools[k].words), pools[k].words, pools[k].live, pools[k].slotSize)
    {
      hide Sound, Good, Class, Untouched, MemoryPool.Valid;
      ghost var s := Model();
      SoundIsShaped(s);
      StepSound(s, Op.FreeMemory(p, size));
      forall k | 0 <= k < POOLS ensures Untouched(pools[k].words, pools[k].words, pools[k].live, pools[k].slotSize) {
        WriteNothing(pools[k].words, pools[k].live, pools[k].slotSize);
      }
      if p == 0 {
        return;
      }
      OwnedIsLive(s, p);
      owned := owned - {p};
      if size > MAX_SLOT {
        assert Models() == s.pools;
        return;
      }
      pools[Class(size)].Deallocate(p);
      assert Models() == Free(s, p, size).pools;
    }
  }
}
