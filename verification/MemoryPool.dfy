/** The slot allocator as it runs: raw pointers, and a free list threaded through the freed slots themselves. */
module MemoryPools {
  import opened PoolSpec
  import opened PoolTheorems

  // Cells linked through the word at the start of each, up to the null pointer.
  ghost predicate Linked(words: map<nat, nat>, head: nat, cells: seq<nat>) {
    && head == Next(cells, 0)
    && forall i :: 0 <= i < |cells| ==> cells[i] != 0 && cells[i] in words && words[cells[i]] == Next(cells, i + 1)
  }

  function Next(cells: seq<nat>, i: nat): nat {
    if i < |cells| then cells[i] else 0
  }

  lemma LinkedWrite(words: map<nat, nat>, head: nat, cells: seq<nat>, a: nat, v: nat)
    requires Linked(words, head, cells) && a !in cells
    ensures Linked(words[a := v], head, cells)
  {
  }

  lemma LinkedPush(words: map<nat, nat>, head: nat, cells: seq<nat>, a: nat)
    requires Linked(words, head, cells) && a !in cells && a != 0
    ensures Linked(words[a := head], a, [a] + cells)
  {
  }

  lemma LinkedPop(words: map<nat, nat>, head: nat, cells: seq<nat>)
    requires Linked(words, head, cells) && cells != []
    ensures head == cells[0] && head in words && Linked(words, words[head], cells[1..])
  {
  }

  // No word of a slot is a block header.
  lemma NotAHeader(s: Pool, p: nat, a: nat)
    requires Good(s) && (p in s.live || p in s.free) && p <= a < p + s.slotSize
    ensures a !in s.blocks
  {
    hide Accounted, Cutting;
    var j, b := SlotInBlock(s, p);
  }

  // A word of a live slot belongs to no free slot, and to no other live one.
  lemma OnlyInOneSlot(s: Pool, p: nat, q: nat, a: nat)
    requires Good(s) && s.slotSize % 8 == 0
    requires p in s.live && (q in s.live || q in s.free) && p != q && p <= a < p + s.slotSize
    ensures !(q <= a < q + s.slotSize)
  {
    hide Good;
    if p < q { SlotsDisjoint(s, p, q); } else { SlotsDisjoint(s, q, p); }
  }

  // The words inside the given slots hold what they held before.
  ghost predicate Untouched(before: map<nat, nat>, after: map<nat, nat>, slots: set<nat>, size: nat) {
    forall p, a :: p in slots && p <= a < p + size ==>
      (a in before <==> a in after) && (a in before ==> after[a] == before[a])
  }

  lemma WriteOutside(words: map<nat, nat>, slots: set<nat>, size: nat, a: nat, v: nat)
    requires forall p :: p in slots ==> !(p <= a < p + size)
    ensures Untouched(words, words[a := v], slots, size)
  {
  }

  class MemoryPool {
    const blockSize: nat
    var slotSize: nat
    var firstBlock: nat
    var curSlot: nat
    var freeList: nat
    var lastSlot: nat
    var words: map<nat, nat>     // the memory of the blocks, by address of each word

    ghost var blocks: seq<nat>
    ghost var free: seq<nat>
    ghost var live: set<nat>

    ghost function Model(): Pool
      reads this
    {
      Pool(slotSize, blockSize, blocks, curSlot, free, live)
    }

    ghost predicate Valid()
      reads this
    {
      && Good(Model()) && slotSize % 8 == 0
      && Linked(words, firstBlock, blocks) && Linked(words, freeList, free)
      && lastSlot == if blocks == [] then 0 else Last(Model(), blocks[0])
    }

    constructor (blockSize: nat, size: nat)
      requires Sized(size, blockSize) && size % 8 == 0
      ensures Valid() && Model() == Init(size, blockSize)
    {
      this.blockSize, slotSize := blockSize, size;
      firstBlock, curSlot, freeList, lastSlot := 0, 0, 0, 0;
      words := map[];
      blocks, free, live := [], [], {};
      new;
      InitGood(size, blockSize);
    }

    // room is what operator new returns if a block is needed.
    method Allocate(room: nat) returns (p: nat)
      requires Valid() && Legal(Model(), PoolSpec.Op.Allocate(room))
      modifies this
      ensures Valid() && (Model(), p) == Alloc(old(Model()), room)
      ensures Untouched(old(words), words, old(live), slotSize)
    {
      hide Good, Untouched, Linked, Available;
      ghost var s := Model();
      StepKeeps(s, PoolSpec.Op.Allocate(room));
      if freeList != 0 {
        LinkedHead(words, freeList, free);
        LinkedPop(words, freeList, free);
        p := freeList;
        freeList := words[freeList];
        live := live + {p};
        free := free[1..];
        WriteNothing(words, old(live), slotSize);
        return;
      }
      LinkedHead(words, freeList, free);
      if curSlot >= lastSlot {
        AllocateNewBlock(room);
      } else {
        WriteNothing(words, old(live), slotSize);
      }
      p := curSlot;
      curSlot := curSlot + slotSize / 8 * 8;
      live := live + {p};
    }

    method AllocateNewBlock(room: nat)
      requires Valid() && free == [] && NeedsBlock(Model()) && Available(Model(), room)
      modifies this
      ensures Model() == Open(old(Model()), room)
      ensures Linked(words, firstBlock, blocks) && Linked(words, freeList, free) && lastSlot == Last(Model(), room)
      ensures Untouched(old(words), words, old(live), slotSize)
    {
      hide Good, Untouched, Linked, Available, Pad, NeedsBlock;
      FreshBlock(Model(), room);
      LinkedPush(words, firstBlock, blocks, room);
      WriteOutside(words, live, slotSize, room, firstBlock);
      words := words[room := firstBlock];
      firstBlock := room;
      blocks := [room] + blocks;
      var body := room + HEADER;
      var paddingSize := Pad(body, slotSize);
      curSlot := body + paddingSize;
      lastSlot := room + blockSize - slotSize + 1;
      freeList := 0;
      NoLinks(words);
    }

    method Deallocate(ptr: nat)
      requires Valid() && Legal(Model(), PoolSpec.Op.Deallocate(ptr))
      modifies this
      ensures Valid() && Model() == Dealloc(old(Model()), ptr)
      ensures Untouched(old(words), words, live, slotSize)
    {
      hide Good, Untouched, Linked;
      ghost var s := Model();
      StepKeeps(s, PoolSpec.Op.Deallocate(ptr));
      if ptr != 0 {
        FreedSlot(s, ptr);
        LinkedPush(words, freeList, free, ptr);
        LinkedWrite(words, firstBlock, blocks, ptr, freeList);
        WriteOutside(words, live - {ptr}, slotSize, ptr, freeList);
        words := words[ptr := freeList];
        freeList := ptr;
        free := [ptr] + free;
        live := live - {ptr};
      } else {
        WriteNothing(words, live, slotSize);
      }
    }

    // What the owner of a live slot may do with it.
    method Write(p: nat, a: nat, v: nat)
      requires Valid() && p in live && p <= a < p + slotSize
      modifies `words
      ensures Valid() && Model() == old(Model()) && words == old(words)[a := v]
      ensures Untouched(old(words), words, live - {p}, slotSize)
    {
      hide Good, Untouched, Linked;
      LiveWord(Model(), p, a);
      LinkedWrite(words, firstBlock, blocks, a, v);
      LinkedWrite(words, freeList, free, a, v);
      WriteOutside(words, live - {p}, slotSize, a, v);
      words := words[a := v];
    }

    /** The destructor gives every block back to the system exactly once, whatever the owners wrote. */
    method Destroy() returns (returned: seq<nat>)
      requires Valid()
      ensures returned == blocks
      ensures forall i, j :: 0 <= i < j < |returned| ==> returned[i] != returned[j]
    {
      hide Good, Linked, Next, Last;
      BlocksDistinct(Model());
      returned := [];
      var cur := firstBlock;
      LinkedAt(words, firstBlock, blocks, 0);
      while cur != 0
        invariant |returned| <= |blocks| && returned == blocks[..|returned|] && cur == Next(blocks, |returned|)
        invariant cur == 0 <==> |returned| == |blocks|
        decreases |blocks| - |returned|
      {
        LinkedAt(words, firstBlock, blocks, |returned|);
        var next := words[cur];
        returned := returned + [cur];
        cur := next;
        LinkedAt(words, firstBlock, blocks, |returned|);
      }
    }
  }

  lemma LinkedAt(words: map<nat, nat>, head: nat, cells: seq<nat>, i: nat)
    requires Linked(words, head, cells) && i <= |cells|
    ensures head == Next(cells, 0) && (Next(cells, i) == 0 <==> i == |cells|)
    ensures i < |cells| ==> Next(cells, i) == cells[i] && cells[i] in words && words[cells[i]] == Next(cells, i + 1)
  {
  }

  lemma BlocksDistinct(s: Pool)
    requires Good(s)
    ensures forall i, j :: 0 <= i < j < |s.blocks| ==> s.blocks[i] != s.blocks[j]
  {
  }

  lemma LinkedHead(words: map<nat, nat>, head: nat, cells: seq<nat>)
    requires Linked(words, head, cells)
    ensures head == 0 <==> cells == []
    ensures cells != [] ==> head in words
  {
  }

  lemma NoLinks(words: map<nat, nat>)
    ensures Linked(words, 0, [])
  {
  }

  lemma WriteNothing(words: map<nat, nat>, slots: set<nat>, size: nat)
    ensures Untouched(words, words, slots, size)
  {
  }

  lemma FreshBlock(s: Pool, room: nat)
    requires Good(s) && Available(s, room)
    ensures room !in s.blocks && room != 0 && 8 <= s.slotSize <= s.blockSize
    ensures forall p :: p in s.live ==> !(p <= room < p + s.slotSize)
  {
    hide Accounted, Cutting;
    forall p | p in s.live ensures !(p <= room < p + s.slotSize) {
      var j, b := SlotInBlock(s, p);
    }
  }

  lemma FreedSlot(s: Pool, ptr: nat)
    requires Good(s) && s.slotSize % 8 == 0 && ptr in s.live
    ensures ptr !in s.blocks && ptr !in s.free && ptr != 0
    ensures forall q :: q in s.live - {ptr} ==> !(q <= ptr < q + s.slotSize)
  {
    LiveWord(s, ptr, ptr);
    var j, b := SlotInBlock(s, ptr);
  }

  lemma LiveWord(s: Pool, p: nat, a: nat)
    requires Good(s) && s.slotSize % 8 == 0 && p in s.live && p <= a < p + s.slotSize
    ensures a !in s.blocks && a !in s.free
    ensures forall q :: q in s.live - {p} ==> !(q <= a < q + s.slotSize)
  {
    hide BlocksApart, Cutting;
    NotAHeader(s, p, a);
    forall q | q in s.live - {p} ensures !(q <= a < q + s.slotSize) {
      OnlyInOneSlot(s, p, q, a);
    }
    if a in s.free { OnlyInOneSlot(s, p, a, a); }
  }
}
