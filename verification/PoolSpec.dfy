/** One slot allocator: blocks from the system are cut into slots of one size, and freed slots are reused first. */
module PoolSpec {
  const WORD: nat := 0x1_0000_0000_0000_0000    // size_t counts modulo this
  const HEADER: nat := 8                        // sizeof(Slot*): the link to the next block

  // Padding in front of the first slot, in size_t arithmetic.
  function Pad(p: nat, align: nat): nat
    requires 0 < align
  {
    (align - p) % WORD % align
  }

  lemma DivMod(x: int, m: nat)
    requires 0 < m
    ensures x == m * (x / m) + x % m
  {
  }

  lemma MulMonotone(m: nat, i: int, j: int)
    requires i <= j
    ensures m * i <= m * j
  {
  }

  lemma OneRemainder(m: nat, i: int, r: nat, j: int, t: nat)
    requires r < m && t < m && m * i + r == m * j + t
    ensures r == t
  {
    if i < j { MulMonotone(m, i + 1, j); }
    if j < i { MulMonotone(m, j + 1, i); }
  }

  lemma AddMultiple(x: int, m: nat, k: int)
    requires 0 < m
    ensures (x + m * k) % m == x % m
  {
    var y := x + m * k;
    DivMod(x, m);
    DivMod(y, m);
    assert y == m * (x / m + k) + x % m;
    OneRemainder(m, x / m + k, x % m, y / m, y % m);
  }

  lemma SumOfMultiples(a: int, b: int, m: nat)
    requires 0 < m && a % m == 0 && b % m == 0
    ensures (a + b) % m == 0
  {
    DivMod(b, m);
    AddMultiple(a, m, b / m);
  }

  /** The padded address is a multiple of the slot size when it does not wrap, and congruent to 2^64 when it does. */
  lemma PadResidue(p: nat, align: nat)
    requires 0 < align < WORD && p < WORD
    ensures Pad(p, align) < align
    ensures (p + Pad(p, align)) % align == if p <= align then 0 else WORD % align
  {
    Wrapped(p, align);
    if p <= align {
      PadTo(p, align - p, align, align);
      AddMultiple(0, align, 1);
    } else {
      PadTo(p, align - p + WORD, align + WORD, align);
      AddMultiple(WORD, align, 1);
    }
  }

  // The difference as size_t has it.
  lemma Wrapped(p: nat, align: nat)
    requires 0 < align < WORD && p < WORD
    ensures (align - p) % WORD == if p <= align then align - p else align - p + WORD
  {
    if p > align { AddMultiple(align - p, WORD, 1); }
  }

  lemma PadTo(p: nat, x: nat, t: nat, align: nat)
    requires 0 < align && p + x == t
    ensures x % align < align && (p + x % align) % align == t % align
  {
    DivMod(x, align);
    AddMultiple(t, align, -(x / align));
    assert p + x % align == t + align * -(x / align);
  }

  /** Beyond the smallest addresses the padding aligns to the slot size exactly when that divides 2^64. */
  lemma PadAlignsIff(p: nat, align: nat)
    requires 0 < align < WORD && p < WORD
    ensures (p + Pad(p, align)) % align == 0 <==> p <= align || WORD % align == 0
  {
    PadResidue(p, align);
  }

  lemma DividesThrough(x: nat, m: nat, q: nat)
    requires 0 < m && 0 < q && m % q == 0
    ensures x % m % q == x % q
  {
    DivMod(x, m);
    DivMod(m, q);
    var (k, n) := (x / m, m / q);
    assert x == x % m + q * (n * k) by { assert m * k == q * n * k; }
    AddMultiple(x % m, q, n * k);
  }

  /** Every divisor of both the slot size and 2^64 divides the padded address. */
  lemma PadAligns(p: nat, align: nat, q: nat)
    requires 0 < align < WORD && p < WORD && 0 < q && align % q == 0 && WORD % q == 0
    ensures (p + Pad(p, align)) % q == 0
  {
    PadResidue(p, align);
    DividesThrough(p + Pad(p, align), align, q);
    DividesThrough(WORD, align, q);
  }

  // ----- the pool -----

  datatype Pool = Pool(
    slotSize: nat,
    blockSize: nat,
    blocks: seq<nat>,   // newest first
    cur: nat,           // where the newest block is cut next
    free: seq<nat>,     // most recently freed first
    live: set<nat>)     // handed out and not yet freed

  predicate Sized(slotSize: nat, blockSize: nat) {
    8 <= slotSize && HEADER + 2 * slotSize <= blockSize + 1 && blockSize < WORD
  }

  // The cursor moves by whole words.
  function Stride(s: Pool): nat {
    s.slotSize / 8 * 8
  }

  function Init(slotSize: nat, blockSize: nat): Pool {
    Pool(slotSize, blockSize, [], 0, [], {})
  }

  function First(s: Pool, b: nat): nat
    requires 0 < s.slotSize
  {
    b + HEADER + Pad(b + HEADER, s.slotSize)
  }

  // The mark past which no slot of block b can start.
  function Last(s: Pool, b: nat): int {
    b + s.blockSize - s.slotSize + 1
  }

  predicate NeedsBlock(s: Pool) {
    s.blocks == [] || s.cur >= Last(s, s.blocks[0])
  }

  function Open(s: Pool, room: nat): Pool
    requires 0 < s.slotSize
  {
    s.(blocks := [room] + s.blocks, cur := First(s, room), free := [])
  }

  // room is what operator new returns if a block is needed.
  function Alloc(s: Pool, room: nat): (Pool, nat)
    requires 0 < s.slotSize
  {
    if s.free != [] then
      (s.(free := s.free[1..], live := s.live + {s.free[0]}), s.free[0])
    else
      var t := if NeedsBlock(s) then Open(s, room) else s;
      (t.(cur := t.cur + Stride(t), live := t.live + {t.cur}), t.cur)
  }

  function Dealloc(s: Pool, p: nat): Pool {
    if p == 0 then s else s.(free := [p] + s.free, live := s.live - {p})
  }

  datatype Op = Allocate(room: nat) | Deallocate(p: nat)

  function Step(s: Pool, op: Op): Pool
    requires 0 < s.slotSize
    ensures Step(s, op).slotSize == s.slotSize && Step(s, op).blockSize == s.blockSize
  {
    match op
    case Allocate(room) => Alloc(s, room).0
    case Deallocate(p) => Dealloc(s, p)
  }

  // operator new returns room apart from what it has given before.
  predicate Available(s: Pool, room: nat) {
    && 0 < room && room % 8 == 0 && room + s.blockSize < WORD
    && forall i :: 0 <= i < |s.blocks| ==> room + s.blockSize <= s.blocks[i] || s.blocks[i] + s.blockSize <= room
  }

  // Callers free only what they hold, or the null pointer.
  predicate Legal(s: Pool, op: Op) {
    match op
    case Allocate(room) => s.free == [] && NeedsBlock(s) ==> Available(s, room)
    case Deallocate(p) => p == 0 || p in s.live
  }

  ghost predicate LegalRun(s: Pool, ops: seq<Op>)
    requires 0 < s.slotSize
    decreases |ops|, 1
  {
    ops == [] ||
    var n := |ops| - 1;
    LegalRun(s, ops[..n]) && Legal(Run(s, ops[..n]), ops[n])
  }

  function Run(s: Pool, ops: seq<Op>): (t: Pool)
    requires 0 < s.slotSize
    ensures t.slotSize == s.slotSize && t.blockSize == s.blockSize
    decreases |ops|, 0
  {
    if ops == [] then s
    else
      var n := |ops| - 1;
      Step(Run(s, ops[..n]), ops[n])
  }

  // ----- what has been cut -----

  ghost predicate IsSlot(s: Pool, b: nat, limit: int, p: nat)
    requires 8 <= s.slotSize
  {
    First(s, b) <= p < limit && (p - First(s, b)) % Stride(s) == 0
  }

  function Limit(s: Pool, j: nat): int
    requires j < |s.blocks|
  {
    if j == 0 then s.cur else Last(s, s.blocks[j])
  }

  ghost predicate CutFrom(s: Pool, j: nat, p: nat)
    requires 8 <= s.slotSize && j < |s.blocks|
  {
    IsSlot(s, s.blocks[j], Limit(s, j), p)
  }

  ghost predicate Cut(s: Pool, p: nat)
    requires 8 <= s.slotSize
  {
    exists j: nat :: j < |s.blocks| && CutFrom(s, j, p)
  }

  ghost predicate BlocksApart(s: Pool) {
    && (forall i :: 0 <= i < |s.blocks| ==> 0 < s.blocks[i] && s.blocks[i] % 8 == 0 && s.blocks[i] + s.blockSize < WORD)
    && (forall i, j :: 0 <= i < j < |s.blocks| ==>
          s.blocks[i] + s.blockSize <= s.blocks[j] || s.blocks[j] + s.blockSize <= s.blocks[i])
  }

  // The newest block has been cut at least once, and the last cut started in time.
  ghost predicate Cutting(s: Pool)
    requires 8 <= s.slotSize
  {
    if s.blocks == [] then s.cur == 0
    else
      var b := s.blocks[0];
      First(s, b) < s.cur < Last(s, b) + Stride(s) && (s.cur - First(s, b)) % Stride(s) == 0
  }

  // Every slot ever cut is either live or on the free list, once.
  ghost predicate Accounted(s: Pool)
    requires 8 <= s.slotSize
  {
    && (forall p: nat :: Cut(s, p) <==> p in s.live || p in s.free)
    && (forall i, j :: 0 <= i < j < |s.free| ==> s.free[i] != s.free[j])
    && (forall i :: 0 <= i < |s.free| ==> s.free[i] !in s.live)
  }

  ghost predicate Good(s: Pool) {
    Sized(s.slotSize, s.blockSize) && BlocksApart(s) && Cutting(s) && Accounted(s)
  }
}
