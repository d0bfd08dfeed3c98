/** What every run of the slot allocator keeps, and what that means for the pointers handed out. */
module PoolTheorems {
  import opened PoolSpec

  lemma NextSlot(a: int, m: nat)
    requires 0 < m && a % m == 0
    ensures (a + m) % m == 0
  {
    AddMultiple(a, m, 1);
  }

  // Two different multiples are at least one slot apart.
  lemma Gap(a: int, b: int, m: nat)
    requires 0 < m && a < b && a % m == 0 && b % m == 0
    ensures a + m <= b
  {
    DivMod(a, m);
    DivMod(b, m);
    var (i, j) := (a / m, b / m);
    if j <= i {
      MulMonotone(m, j, i);
      assert false;
    }
    MulMonotone(m, i + 1, j);
  }

  lemma SlotsApart(s: Pool, b: nat, l: int, l2: int, p: nat, q: nat)
    requires 8 <= s.slotSize && IsSlot(s, b, l, p) && IsSlot(s, b, l2, q) && p < q
    ensures p + Stride(s) <= q
  {
    Gap(p - First(s, b), q - First(s, b), Stride(s));
  }

  lemma FirstBounds(s: Pool, b: nat)
    requires Sized(s.slotSize, s.blockSize) && b + s.blockSize < WORD
    ensures b + HEADER <= First(s, b) < Last(s, b)
  {
    PadResidue(b + HEADER, s.slotSize);
  }

  // ----- bumping the cursor -----

  // One more slot is cut when the cursor moves on.
  lemma LimitMoves(s: Pool, b: nat, cur: int, p: nat)
    requires 8 <= s.slotSize && First(s, b) <= cur && (cur - First(s, b)) % Stride(s) == 0
    ensures IsSlot(s, b, cur + Stride(s), p) <==> IsSlot(s, b, cur, p) || p == cur
  {
    var f := First(s, b);
    if f <= p < cur + Stride(s) && (p - f) % Stride(s) == 0 && cur < p {
      Gap(cur - f, p - f, Stride(s));
    }
  }

  // In a used-up block the cursor and the mark admit the same slots.
  lemma UsedUp(s: Pool, p: nat)
    requires Sized(s.slotSize, s.blockSize) && Cutting(s) && s.blocks != [] && NeedsBlock(s)
    ensures IsSlot(s, s.blocks[0], s.cur, p) <==> IsSlot(s, s.blocks[0], Last(s, s.blocks[0]), p)
  {
    var f := First(s, s.blocks[0]);
    if f <= p < s.cur && (p - f) % Stride(s) == 0 {
      Gap(p - f, s.cur - f, Stride(s));
    }
  }

  // The slots of each block after the cursor moved on within block 0.
  lemma BumpCuts(s: Pool, p: nat)
    requires Sized(s.slotSize, s.blockSize) && s.blocks != []
    requires First(s, s.blocks[0]) <= s.cur && (s.cur - First(s, s.blocks[0])) % Stride(s) == 0
    ensures Cut(s.(cur := s.cur + Stride(s)), p) <==> Cut(s, p) || p == s.cur
  {
    var t := s.(cur := s.cur + Stride(s));
    LimitMoves(s, s.blocks[0], s.cur, p);
    assert CutFrom(t, 0, p) <==> CutFrom(s, 0, p) || p == s.cur;
    forall j: nat | 0 < j < |s.blocks| ensures CutFrom(t, j, p) <==> CutFrom(s, j, p) {
    }
    if p == s.cur { assert CutFrom(t, 0, p); }
  }

  // Opening a block when the newest is used up cuts nothing and loses nothing.
  lemma OpenCuts(s: Pool, room: nat, p: nat)
    requires Sized(s.slotSize, s.blockSize) && Cutting(s) && NeedsBlock(s)
    ensures Cut(Open(s, room), p) <==> Cut(s, p)
  {
    var t := Open(s, room);
    assert !CutFrom(t, 0, p);
    forall j: nat | 0 <= j < |s.blocks| ensures CutFrom(t, j + 1, p) <==> CutFrom(s, j, p) {
      assert t.blocks[j + 1] == s.blocks[j];
      if j == 0 { UsedUp(s, p); }
    }
    if Cut(t, p) {
      var j: nat :| j < |t.blocks| && CutFrom(t, j, p);
      assert CutFrom(s, j - 1, p);
    }
    if Cut(s, p) {
      var j: nat :| j < |s.blocks| && CutFrom(s, j, p);
      assert CutFrom(t, j + 1, p);
    }
  }

  // ----- every step keeps the pool good -----

  lemma OpenKeepsApart(s: Pool, room: nat)
    requires Sized(s.slotSize, s.blockSize) && BlocksApart(s) && Available(s, room)
    ensures BlocksApart(Open(s, room))
  {
    var t := Open(s, room);
    forall i | 0 <= i < |t.blocks| ensures t.blocks[i] == if i == 0 then room else s.blocks[i - 1] {
    }
  }

  // The state between opening a block and cutting from it: as good as before, except that the cursor may be at the start.
  ghost predicate Ready(s: Pool) {
    && Sized(s.slotSize, s.blockSize) && BlocksApart(s) && Accounted(s) && s.free == []
    && s.blocks != []
    && First(s, s.blocks[0]) <= s.cur < Last(s, s.blocks[0])
    && (s.cur - First(s, s.blocks[0])) % Stride(s) == 0
  }

  lemma OpenReady(s: Pool, room: nat)
    requires Good(s) && s.free == []
    requires NeedsBlock(s) ==> Available(s, room)
    ensures Ready(if NeedsBlock(s) then Open(s, room) else s)
  {
    hide BlocksApart, Accounted;
    if NeedsBlock(s) { OpenedReady(s, room); }
  }

  lemma OpenedReady(s: Pool, room: nat)
    requires Good(s) && s.free == [] && NeedsBlock(s) && Available(s, room)
    ensures Ready(Open(s, room))
  {
    hide Accounted, BlocksApart, Cutting, First, Last, Open, Stride, Available, NeedsBlock;
    OpenKeepsApart(s, room);
    OpenAccounted(s, room);
    OpenedCursor(s, room);
  }

  // The cursor starts on the first slot, with room for it.
  lemma OpenedCursor(s: Pool, room: nat)
    requires Sized(s.slotSize, s.blockSize) && Available(s, room)
    ensures var t := Open(s, room);
            && t.slotSize == s.slotSize && t.blockSize == s.blockSize && t.free == [] && t.blocks != [] && t.blocks[0] == room
            && First(t, room) == t.cur < Last(t, room) && (t.cur - First(t, room)) % Stride(t) == 0
  {
    hide Pad, Stride;
    FirstBounds(s, room);
    AtStart(Open(s, room));
    assert First(Open(s, room), room) == First(s, room);
  }

  lemma AtStart(s: Pool)
    requires Sized(s.slotSize, s.blockSize)
    ensures 0 < Stride(s) && 0 % Stride(s) == 0
  {
  }

  lemma OpenAccounted(s: Pool, room: nat)
    requires Good(s) && s.free == [] && NeedsBlock(s)
    ensures Accounted(Open(s, room))
  {
    hide Cut, BlocksApart;
    forall p: nat ensures Cut(Open(s, room), p) <==> Cut(s, p) {
      OpenCuts(s, room, p);
    }
  }

  // What has been cut depends only on the blocks and the cursor.
  lemma SameCuts(s: Pool, t: Pool)
    requires 8 <= s.slotSize == t.slotSize && s.blockSize == t.blockSize && s.blocks == t.blocks && s.cur == t.cur
    ensures forall p: nat :: Cut(s, p) <==> Cut(t, p)
    ensures BlocksApart(s) <==> BlocksApart(t)
    ensures Cutting(s) <==> Cutting(t)
  {
    forall p: nat ensures Cut(s, p) <==> Cut(t, p) {
      forall j: nat | j < |s.blocks| ensures CutFrom(s, j, p) <==> CutFrom(t, j, p) {
      }
    }
  }

  lemma CutKeeps(s: Pool)
    requires Ready(s)
    ensures Good(s.(cur := s.cur + Stride(s), live := s.live + {s.cur}))
    ensures !Cut(s, s.cur)
  {
    var m := s.(cur := s.cur + Stride(s));
    var t := m.(live := m.live + {s.cur});
    NotCutYet(s);
    SameCuts(m, t);
    BumpKeeps(s);
    CutAccounted(s, t);
    hide Cut, Accounted, BlocksApart, Cutting;
  }

  lemma BumpKeeps(s: Pool)
    requires Ready(s)
    ensures var m := s.(cur := s.cur + Stride(s));
            BlocksApart(m) && Cutting(m) && forall p: nat :: Cut(m, p) <==> Cut(s, p) || p == s.cur
  {
    hide Cut, Accounted;
    var m := s.(cur := s.cur + Stride(s));
    forall p: nat ensures Cut(m, p) <==> Cut(s, p) || p == s.cur {
      BumpCuts(s, p);
    }
    NextSlot(s.cur - First(s, s.blocks[0]), Stride(s));
  }

  lemma CutAccounted(s: Pool, t: Pool)
    requires 8 <= s.slotSize && 8 <= t.slotSize && Accounted(s) && s.free == [] == t.free && t.live == s.live + {s.cur}
    requires forall p: nat :: Cut(t, p) <==> Cut(s, p) || p == s.cur
    ensures Accounted(t)
  {
    hide Cut;
  }

  lemma NotCutYet(s: Pool)
    requires Ready(s)
    ensures !Cut(s, s.cur)
  {
    forall j: nat | j < |s.blocks| ensures !CutFrom(s, j, s.cur) {
    }
  }

  lemma ReuseKeeps(s: Pool)
    requires Good(s) && s.free != []
    ensures Good(s.(free := s.free[1..], live := s.live + {s.free[0]}))
  {
    hide Cut, BlocksApart, Cutting;
    var t := s.(free := s.free[1..], live := s.live + {s.free[0]});
    SameCuts(s, t);
    assert s.free == [s.free[0]] + t.free;
    assert forall p :: p in s.free <==> p == s.free[0] || p in t.free;
  }

  lemma FreeKeeps(s: Pool, p: nat)
    requires Good(s) && p in s.live
    ensures Good(s.(free := [p] + s.free, live := s.live - {p}))
  {
    hide Cut, BlocksApart, Cutting;
    var t := s.(free := [p] + s.free, live := s.live - {p});
    SameCuts(s, t);
    assert forall q :: q in t.free <==> q == p || q in s.free;
  }

  lemma StepKeeps(s: Pool, op: Op)
    requires Good(s) && Legal(s, op)
    ensures Good(Step(s, op))
  {
    hide BlocksApart, Cutting, Accounted, Ready, Available, Open;
    match op
    case Allocate(room) =>
      if s.free != [] {
        ReuseKeeps(s);
      } else {
        OpenReady(s, room);
        CutKeeps(if NeedsBlock(s) then Open(s, room) else s);
      }
    case Deallocate(p) =>
      if p != 0 { FreeKeeps(s, p); }
  }

  lemma InitGood(slotSize: nat, blockSize: nat)
    requires Sized(slotSize, blockSize)
    ensures Good(Init(slotSize, blockSize))
  {
  }

  /** Every run of allocations and frees keeps the pool good. */
  lemma {:induction false} RunKeeps(slotSize: nat, blockSize: nat, ops: seq<Op>)
    requires Sized(slotSize, blockSize) && LegalRun(Init(slotSize, blockSize), ops)
    ensures Good(Run(Init(slotSize, blockSize), ops))
  {
    hide Good;
    InitGood(slotSize, blockSize);
    if ops != [] {
      var n := |ops| - 1;
      RunKeeps(slotSize, blockSize, ops[..n]);
      StepKeeps(Run(Init(slotSize, blockSize), ops[..n]), ops[n]);
    }
  }

  // ----- what a good pool promises -----

  /** A slot that was ever cut lies wholly inside one block, past its header. */
  lemma SlotInBlock(s: Pool, p: nat) returns (j: nat, b: nat)
    requires Good(s) && (p in s.live || p in s.free)
    ensures j < |s.blocks| && b == s.blocks[j] && CutFrom(s, j, p)
    ensures b + HEADER <= p && p + s.slotSize <= b + s.blockSize
  {
    j :| j < |s.blocks| && CutFrom(s, j, p);
    b := s.blocks[j];
    FirstBounds(s, b);
    if j == 0 && p < s.cur {
      Gap(p - First(s, b), s.cur - First(s, b), Stride(s));
    }
  }

  /** Two slots are at least a stride apart, live or free, and whichever blocks they are in: they do not overlap when the
      slot size is a whole number of words. */
  lemma SlotsDisjoint(s: Pool, p: nat, q: nat)
    requires Good(s) && p < q && (p in s.live || p in s.free) && (q in s.live || q in s.free)
    ensures p + Stride(s) <= q
    ensures s.slotSize % 8 == 0 ==> p + s.slotSize <= q
  {
    hide Accounted;
    var i, b := SlotInBlock(s, p);
    var j, c := SlotInBlock(s, q);
    if i == j {
      SlotsApart(s, b, Limit(s, i), Limit(s, j), p, q);
    } else {
      var k, l := if i < j then i else j, if i < j then j else i;
      assert s.blocks[k] + s.blockSize <= s.blocks[l] || s.blocks[l] + s.blockSize <= s.blocks[k];
    }
  }

  /** Alignment: whatever divides the slot size and 2^64 divides every pointer handed out. */
  lemma SlotAligned(s: Pool, p: nat, q: nat)
    requires Good(s) && (p in s.live || p in s.free)
    requires 0 < q && s.slotSize % q == 0 && WORD % q == 0
    ensures p % q == 0
  {
    var j, b := SlotInBlock(s, p);
    PadAligns(b + HEADER, s.slotSize, q);
    StrideDivides(s, q);
    StepsAligned(First(s, b), p - First(s, b), Stride(s), q);
  }

  lemma StepsAligned(f: nat, d: nat, m: nat, q: nat)
    requires 0 < m && 0 < q && d % m == 0 && m % q == 0 && f % q == 0
    ensures (f + d) % q == 0
  {
    DividesThrough(d, m, q);
    SumOfMultiples(f, d, q);
  }

  // A divisor of 2^64 is 1, 2, 4 or a multiple of 8, so the stride keeps the alignment that the slot size has.
  lemma StrideDivides(s: Pool, q: nat)
    requires 0 < q && s.slotSize % q == 0 && WORD % q == 0
    ensures Stride(s) % q == 0
  {
    WordDivisor(q);
    if q % 8 == 0 {
      WholeWords(s.slotSize, q);
    } else {
      SmallMultiples(s.slotSize / 8);
    }
  }

  lemma WholeWords(n: nat, q: nat)
    requires 0 < q && n % q == 0 && q % 8 == 0
    ensures n / 8 * 8 == n
  {
    DividesThrough(n, q, 8);
  }

  lemma SmallMultiples(n: nat)
    ensures n * 8 % 1 == 0 && n * 8 % 2 == 0 && n * 8 % 4 == 0
  {
    AddMultiple(0, 2, 4 * n);
    AddMultiple(0, 4, 2 * n);
  }

  lemma WordDivisor(q: nat)
    requires 0 < q && WORD % q == 0
    ensures q % 8 == 0 || q == 1 || q == 2 || q == 4
  {
    DivMod(WORD, q);
    WordIsPow2();
    PowDivisor(q, WORD / q, 64);
  }

  function Pow2(k: nat): nat {
    if k == 0 then 1 else 2 * Pow2(k - 1)
  }

  lemma {:induction false} OddDivisor(q: nat, m: nat, k: nat)
    requires q % 2 == 1 && q * m == Pow2(k)
    ensures q == 1
  {
    if k == 0 {
      OneFactor(q, m);
    } else {
      Parity(q, m);
      Doubled(m, m / 2, q);
      OddDivisor(q, m / 2, k - 1);
    }
  }

  lemma OneFactor(q: nat, m: nat)
    requires q * m == 1
    ensures q == 1
  {
    if q != 1 && m >= 1 { MulMonotone(q, 1, m); }
  }

  // An odd number times m is as odd as m.
  lemma Parity(q: nat, m: nat)
    requires q % 2 == 1
    ensures q * m % 2 == m % 2
  {
    var a := q / 2;
    assert q * m == 2 * (a * m) + m by { assert q == 2 * a + 1; }
  }

  lemma Doubled(n: nat, h: nat, m: nat)
    requires n == 2 * h
    ensures m * n == 2 * (m * h) && n * m == 2 * (h * m)
  {
  }

  lemma {:induction false} PowDivisor(q: nat, m: nat, k: nat)
    requires q * m == Pow2(k)
    ensures q % 8 == 0 || q == 1 || q == 2 || q == 4
  {
    if q % 2 == 1 {
      OddDivisor(q, m, k);
    } else {
      var h := HalfProduct(q, m, Pow2(k));
      PowDivisor(h, m, k - 1);
      TwiceSmall(h);
    }
  }

  lemma HalfProduct(q: nat, m: nat, p: nat) returns (h: nat)
    requires q % 2 == 0 && q * m == p
    ensures q == 2 * h && 2 * (h * m) == p
  {
    h := q / 2;
    Doubled(q, h, m);
  }

  lemma TwiceSmall(h: nat)
    requires h % 8 == 0 || h == 1 || h == 2 || h == 4
    ensures 2 * h % 8 == 0 || 2 * h == 2 || 2 * h == 4
  {
  }

  lemma {:induction false} PowSum(a: nat, b: nat)
    ensures Pow2(a + b) == Pow2(a) * Pow2(b)
  {
    if a > 0 {
      PowSum(a - 1, b);
      assert Pow2(a + b) == 2 * Pow2(a - 1 + b);
      Doubled(Pow2(a), Pow2(a - 1), Pow2(b));
    }
  }

  lemma WordIsPow2()
    ensures Pow2(64) == WORD
  {
    assert Pow2(2) == 4;
    PowSum(2, 2);
    PowSum(4, 4);
    PowSum(8, 8);
    PowSum(16, 16);
    PowSum(32, 32);
  }

  lemma LargestMultiple(room: nat, m: nat) returns (d: nat)
    requires 0 < m
    ensures d % m == 0 && d <= room < d + m
  {
    d := room - room % m;
    DivMod(room, m);
    AddMultiple(0, m, room / m);
  }

  /** Each block but the newest is cut until less than a stride past a slot is left; so is the newest when another is needed. */
  lemma TailShort(s: Pool, j: nat) returns (p: nat)
    requires Good(s) && j < |s.blocks| && (j > 0 || NeedsBlock(s))
    ensures p in s.live || p in s.free
    ensures p + s.slotSize <= s.blocks[j] + s.blockSize < p + s.slotSize + Stride(s)
  {
    var b := s.blocks[j];
    var f := First(s, b);
    FirstBounds(s, b);
    var d := LargestMultiple(Last(s, b) - 1 - f, Stride(s));
    p := f + d;
    if j == 0 { UsedUp(s, p); }
    assert CutFrom(s, j, p);
  }

  /** A block is opened only when every slot cut so far is live, so clearing the free list drops nothing. */
  lemma OpensOnlyWhenAllLive(s: Pool, room: nat)
    requires Good(s) && Legal(s, Allocate(room)) && Alloc(s, room).0.blocks != s.blocks
    ensures s.free == [] && forall p: nat :: Cut(s, p) <==> p in s.live
  {
  }

  /** Where an allocation comes from: the slot freed last, else the next one of the newest block, else the first of a new
      block, which starts within one slot behind the link of eight bytes. */
  lemma AllocTakes(s: Pool, room: nat)
    requires Good(s) && Legal(s, Allocate(room))
    ensures var (t, p) := Alloc(s, room);
            && (s.free != [] ==> p == s.free[0] && t.free == s.free[1..] && t.blocks == s.blocks && t.cur == s.cur)
            && (t.blocks != s.blocks <==> s.free == [] && (s.blocks == [] || s.cur + s.slotSize > s.blocks[0] + s.blockSize))
            && (s.free == [] && t.blocks == s.blocks ==> p == s.cur && p + s.slotSize <= s.blocks[0] + s.blockSize)
            && (s.free == [] && t.blocks != s.blocks ==>
                  t.blocks == [room] + s.blocks && room + 8 <= p < room + 8 + s.slotSize && p + s.slotSize <= room + s.blockSize)
  {
    if s.free == [] {
      hide Accounted, Cutting, BlocksApart;
      if NeedsBlock(s) {
        assert |[room] + s.blocks| != |s.blocks|;
        PadResidue(room + HEADER, s.slotSize);
        FirstBounds(s, room);
      }
    }
  }

  /** An allocation hands out exactly one slot that was not live. */
  lemma AllocHandsOut(s: Pool, room: nat)
    requires Good(s) && Legal(s, Allocate(room))
    ensures var (t, p) := Alloc(s, room);
            p != 0 && p !in s.live && t.live == s.live + {p}
  {
    hide BlocksApart, Cutting, Cut;
    if s.free == [] {
      OpenReady(s, room);
      var t := if NeedsBlock(s) then Open(s, room) else s;
      NotCutYet(t);
    } else {
      var j, b := SlotInBlock(s, s.free[0]);
    }
  }

  // Allocate the given number of slots, collecting what is handed out.
  function AllocMany(s: Pool, n: nat, room: nat): (Pool, seq<nat>)
    requires 0 < s.slotSize
    decreases n
  {
    if n == 0 then (s, [])
    else
      var (t, p) := Alloc(s, room);
      var (u, ps) := AllocMany(t, n - 1, room);
      (u, [p] + ps)
  }

  function FreeMany(s: Pool, ps: seq<nat>): (t: Pool)
    ensures t.slotSize == s.slotSize
  {
    if ps == [] then s else Dealloc(FreeMany(s, ps[..|ps| - 1]), ps[|ps| - 1])
  }

  function Reversed(s: seq<nat>): seq<nat> {
    if s == [] then [] else [s[|s| - 1]] + Reversed(s[..|s| - 1])
  }

  /** Last in, first out: after freeing live slots, as many allocations hand them out in reverse and
      restore the pool. */
  lemma {:induction false} ReuseIsLifo(s: Pool, ps: seq<nat>, room: nat)
    requires 0 < s.slotSize
    requires forall i :: 0 <= i < |ps| ==> ps[i] != 0 && ps[i] in s.live
    requires forall i, j :: 0 <= i < j < |ps| ==> ps[i] != ps[j]
    ensures AllocMany(FreeMany(s, ps), |ps|, room) == (s, Reversed(ps))
  {
    if ps != [] {
      var n := |ps| - 1;
      var mid := FreeMany(s, ps[..n]);
      FreedLive(s, ps[..n]);
      var t := Dealloc(mid, ps[n]);
      assert Alloc(t, room).0 == mid by {
        assert t.free[1..] == mid.free;
        assert t.live + {ps[n]} == mid.live;
      }
      ReuseIsLifo(s, ps[..n], room);
    }
  }

  lemma {:induction false} FreedLive(s: Pool, ps: seq<nat>)
    requires forall i :: 0 <= i < |ps| ==> ps[i] != 0
    ensures FreeMany(s, ps).live == s.live - set p | p in ps
  {
    if ps != [] {
      var n := |ps| - 1;
      FreedLive(s, ps[..n]);
      assert ps == ps[..n] + [ps[n]];
    }
  }

  /** The cursor moves by whole machine words, so neighbouring slots stay apart exactly when the slot size is one. */
  lemma NeighboursApartIff(s: Pool)
    requires 0 < s.slotSize && s.free == [] && !NeedsBlock(s)
    ensures s.cur + s.slotSize <= Alloc(s, 0).0.cur <==> s.slotSize % 8 == 0
  {
  }

  // A pointer handed out is a whole slot away from each live one.
  predicate SlotApart(s: Pool, p: nat) {
    forall q :: q in s.live ==> p + s.slotSize <= q || q + s.slotSize <= p
  }

  /** Of a pool with room for three slots in a block: in every run each allocation hands out memory apart from all that is
      live if and only if the slot size is a whole number of words. */
  lemma HandsOutApartIff(slotSize: nat, blockSize: nat)
    requires 0 < slotSize && HEADER + 3 * slotSize <= blockSize && HEADER + blockSize < WORD
    ensures (forall ops, room :: LegalRun(Init(slotSize, blockSize), ops) && Legal(Run(Init(slotSize, blockSize), ops), Allocate(room))
                                 ==> SlotApart(Run(Init(slotSize, blockSize), ops), Alloc(Run(Init(slotSize, blockSize), ops), room).1))
            <==> slotSize % 8 == 0
  {
    var s := Init(slotSize, blockSize);
    if slotSize % 8 == 0 {
      forall ops, room | LegalRun(s, ops) && Legal(Run(s, ops), Allocate(room))
        ensures SlotApart(Run(s, ops), Alloc(Run(s, ops), room).1)
      {
        RunKeeps(slotSize, blockSize, ops);
        AllocApart(Run(s, ops), room);
      }
    } else {
      var ops := SecondOverlaps(slotSize, blockSize);
    }
  }

  lemma AllocApart(s: Pool, room: nat)
    requires Good(s) && s.slotSize % 8 == 0 && Legal(s, Allocate(room))
    ensures SlotApart(s, Alloc(s, room).1)
  {
    var (t, p) := Alloc(s, room);
    AllocHandsOut(s, room);
    StepKeeps(s, Allocate(room));
    hide Good, Alloc;
    forall q | q in s.live ensures p + s.slotSize <= q || q + s.slotSize <= p {
      if p < q { SlotsDisjoint(t, p, q); } else { SlotsDisjoint(t, q, p); }
    }
  }

  lemma SecondOverlaps(slotSize: nat, blockSize: nat) returns (ops: seq<Op>)
    requires 0 < slotSize && HEADER + 3 * slotSize <= blockSize && HEADER + blockSize < WORD && slotSize % 8 != 0
    ensures var s := Run(Init(slotSize, blockSize), ops);
            LegalRun(Init(slotSize, blockSize), ops) && Legal(s, Allocate(0)) && !SlotApart(s, Alloc(s, 0).1)
  {
    var s := Init(slotSize, blockSize);
    ops := [Allocate(HEADER)];
    assert ops[..0] == [] && LegalRun(s, []) && Run(s, []) == s;
    assert Legal(s, ops[0]) && LegalRun(s, ops);
    var t := Run(s, ops);
    assert t == Alloc(s, HEADER).0;
    var p := First(s, HEADER);
    PadResidue(2 * HEADER, slotSize);
    assert p in t.live && t.cur == p + slotSize / 8 * 8 && !NeedsBlock(t);
  }

  /** In every run: two pointers handed out and not yet freed are as many whole words apart as a slot has, each slot inside
      a block and past its header. */
  lemma RunPointers(slotSize: nat, blockSize: nat, ops: seq<Op>, p: nat, q: nat) returns (b: nat)
    requires Sized(slotSize, blockSize) && LegalRun(Init(slotSize, blockSize), ops)
    requires var s := Run(Init(slotSize, blockSize), ops); p in s.live && q in s.live && p != q
    ensures var s := Run(Init(slotSize, blockSize), ops);
            b in s.blocks && b + HEADER <= p && p + slotSize <= b + blockSize
    ensures p + slotSize / 8 * 8 <= q || q + slotSize / 8 * 8 <= p
    ensures slotSize % 8 == 0 ==> p + slotSize <= q || q + slotSize <= p
  {
    hide Good, Run, LegalRun;
    RunKeeps(slotSize, blockSize, ops);
    var s := Run(Init(slotSize, blockSize), ops);
    var j;
    j, b := SlotInBlock(s, p);
    if p < q { SlotsDisjoint(s, p, q); } else { SlotsDisjoint(s, q, p); }
  }

  /** In every run the slots ever cut are the live ones and the free ones, and no slot is both or free twice. */
  lemma RunConserves(slotSize: nat, blockSize: nat, ops: seq<Op>, p: nat)
    requires Sized(slotSize, blockSize) && LegalRun(Init(slotSize, blockSize), ops)
    ensures var s := Run(Init(slotSize, blockSize), ops);
            && (Cut(s, p) <==> p in s.live || p in s.free) && !(p in s.live && p in s.free)
            && (forall i, j :: 0 <= i < j < |s.free| ==> s.free[i] != s.free[j])
  {
    RunKeeps(slotSize, blockSize, ops);
    hide Run, LegalRun, BlocksApart, Cutting, Cut;
  }
}
