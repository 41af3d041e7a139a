/** The pool of blocks of one size, whose free list is threaded through the free blocks themselves. */
module MemPool {
  const NODE := 8              // the size of a free_node_t, which is one word
  const MAX_POOLS := 8

  datatype Status = Ok | ParamError | Error

  function AlignedSize(size: nat): nat {
    (size + 7) / 8 * 8
  }

  // The least multiple of eight that is at least size
  ghost predicate IsAligned(block: nat, size: nat) {
    block % 8 == 0 && size <= block && forall other: nat :: size <= other && other % 8 == 0 ==> block <= other
  }

  lemma AlignedSizeIsLeast(size: nat)
    ensures IsAligned(AlignedSize(size), size)
  {
  }

  // Block i of a memory at base, and the block that an address lies in
  function Block(base: nat, size: nat, i: nat): nat {
    base + i * size
  }

  function IndexOf(base: nat, size: nat, p: nat): nat
    requires size > 0 && p >= base
  {
    (p - base) / size
  }

  lemma BlockIndex(base: nat, size: nat, i: nat)
    requires size > 0
    ensures Block(base, size, i) >= base && IndexOf(base, size, Block(base, size, i)) == i
    ensures (Block(base, size, i) - base) % size == 0
  {
    DivideProduct(i, size);
  }

  lemma DivideProduct(i: nat, size: nat)
    requires size > 0
    ensures i * size >= 0 && i * size / size == i && i * size % size == 0
  {
    var q, r := i * size / size, i * size % size;
    assert (i - q) * size == r;
    if i > q { Larger(i - q, 1, size); }
  }

  lemma Larger(i: nat, j: nat, size: nat)
    requires i >= j
    ensures i * size >= j * size
  {
    assert (i - j) * size >= 0;
  }

  // An address in the memory, at a whole number of blocks from its start, is that of a block.
  lemma AddressOfBlock(base: nat, size: nat, count: nat, p: nat)
    requires size > 0 && base <= p < base + size * count && (p - base) % size == 0
    ensures IndexOf(base, size, p) < count && p == Block(base, size, IndexOf(base, size, p))
  {
    var i := (p - base) / size;
    assert p - base == i * size;
    if i >= count { Larger(i, count, size); }
  }

  // Blocks are aligned and lie in the memory, and no two overlap.
  lemma BlocksAreApart(base: nat, size: nat, count: nat, i: nat, j: nat)
    requires base % 8 == 0 && size % 8 == 0 && i < j < count
    ensures Block(base, size, i) % 8 == 0
    ensures base <= Block(base, size, i) && Block(base, size, j) + size <= base + size * count
    ensures Block(base, size, i) + size <= Block(base, size, j)
  {
    Larger(j, i + 1, size);
    Larger(count, j + 1, size);
    assert i * size == 8 * (i * (size / 8));
  }

  function Upward(i: nat, n: nat): (r: seq<nat>)
    requires i <= n
    ensures |r| == n - i && forall k :: 0 <= k < n - i ==> r[k] == i + k
  {
    seq(n - i, k requires 0 <= k => i + k)
  }

  lemma UpwardStep(i: nat, n: nat)
    requires i < n
    ensures [i] + Upward(i + 1, n) == Upward(i, n) && i !in Upward(i + 1, n)
  {
  }

  class Pool {
    const blockSize: nat
    const totalBlocks: nat
    const base: nat            // where the memory starts
    const words: array2<nat>   // the memory: for each block, its words of eight bytes
    var freeBlocks: nat
    var freeList: nat          // the address of a block, or 0
    ghost var free: seq<nat>   // the free blocks in the order of the list
    ghost var live: set<nat>   // the blocks handed out

    ghost predicate Shape() {
      && blockSize > 0 && blockSize % 8 == 0 && totalBlocks > 0 && base > 0 && base % 8 == 0
      && words.Length0 == totalBlocks && words.Length1 == blockSize / 8
    }

    // An address in the memory, a whole number of blocks from its start
    ghost predicate IsBlock(p: nat) {
      exists b: nat :: b < totalBlocks && p == Block(base, blockSize, b)
    }

    // The address of the first of some blocks, or null
    function First(s: seq<nat>): nat {
      if s == [] then 0 else Block(base, blockSize, s[0])
    }

    // Following the list from an address visits exactly these blocks, and ends.
    ghost predicate Chain(head: nat, s: seq<nat>)
      requires Shape()
      reads words
    {
      && head == First(s)
      && (forall i :: 0 <= i < |s| ==> s[i] < totalBlocks)
      && (forall i :: 0 <= i < |s| ==> words[s[i], 0] == First(s[i + 1..]))
    }

    ghost predicate Valid()
      reads this, words
    {
      && Shape() && Chain(freeList, free) && freeBlocks == |free|
      && (forall i, j :: 0 <= i < j < |free| ==> free[i] != free[j])
      && (forall b :: 0 <= b < totalBlocks ==> (b in live) != (b in free))
      && (forall b :: b in live ==> b < totalBlocks)
    }

    // The part of mempool_create that sets up a pool, in memory that malloc gave
    constructor (size: nat, count: nat, memory: nat)
      requires size >= NODE && count > 0 && memory > 0 && memory % 8 == 0
      ensures Valid() && fresh(words) && blockSize == AlignedSize(size) && totalBlocks == count && base == memory
      ensures live == {} && freeBlocks == count && free == Upward(0, count)
    {
      var n := AlignedSize(size) / 8;
      blockSize, totalBlocks, base := AlignedSize(size), count, memory;
      words := new nat[count, n];
      freeBlocks, freeList := count, 0;
      free, live := [], {};
      new;
      var i := count;
      while i > 0
        invariant i <= count && Shape() && Chain(freeList, free)
        invariant freeBlocks == count && live == {} && fresh(words) && free == Upward(i, count)
      {
        i := i - 1;
        UpwardStep(i, count);
        Push(Block(base, blockSize, i), i);
      }
      forall b | 0 <= b < count ensures b in free { assert Upward(0, count)[b] == b; }
    }

    // Puts block b, at address p, in front of the list.
    method Push(p: nat, ghost b: nat)
      requires Shape() && b < totalBlocks && p == Block(base, blockSize, b)
      modifies this`freeList, this`free, words
      ensures free == [b] + old(free) && freeList == p
      ensures b !in old(free) && old(Chain(freeList, free)) ==> Chain(freeList, free)
      ensures forall i, j :: 0 <= i < totalBlocks && 0 <= j < blockSize / 8 ==>
                words[i, j] == if i == b && j == 0 then old(freeList) else old(words[i, j])
    {
      BlockIndex(base, blockSize, b);
      words[IndexOf(base, blockSize, p), 0] := freeList;
      freeList := p;
      free := [b] + free;
      assert forall i :: 0 < i <= |free| ==> free[i..] == old(free)[i - 1..];
    }

    // mempool_alloc
    method Alloc() returns (p: nat)
      requires Valid()
      modifies this
      ensures Valid()
      ensures if old(free) == [] then p == 0 && live == old(live) && free == []
              else p == First(old(free)) != 0 && free == old(free[1..]) && live == old(live) + {old(free[0])}
    {
      hide Block, IndexOf;
      if free != [] { BlockIndex(base, blockSize, free[0]); }
      if freeList == 0 {
        return 0;
      }
      p := freeList;
      freeList := words[IndexOf(base, blockSize, p), 0];
      freeBlocks := freeBlocks - 1;
      live, free := live + {free[0]}, free[1..];
    }

    // What the holder of a block does to it
    method Write(b: nat, word: nat, value: nat)
      requires Valid() && b in live && word < blockSize / 8
      modifies words
      ensures Valid() && words[b, word] == value
      ensures forall i, j :: 0 <= i < totalBlocks && 0 <= j < blockSize / 8 && (i != b || j != word) ==>
              words[i, j] == old(words[i, j])
    {
      words[b, word] := value;
    }
  
    // Every one of these blocks points to one of them.
    ghost predicate Closed(c: seq<nat>)
      requires Shape()
      reads words
    {
      && (forall j :: 0 <= j < |c| ==> c[j] < totalBlocks)
      && (forall j :: 0 <= j < |c| ==> exists m :: 0 <= m < |c| && words[c[j], 0] == Block(base, blockSize, c[m]))
    }

    lemma ChainTail(head: nat, s: seq<nat>)
      requires Shape() && Chain(head, s) && head != 0
      ensures s != [] && s[0] < totalBlocks && head == Block(base, blockSize, s[0]) && Chain(words[s[0], 0], s[1..])
    {
      forall i | 0 <= i < |s[1..]| ensures words[s[1..][i], 0] == First(s[1..][i + 1..]) {
        assert s[1..][i] == s[i + 1] && s[1..][i + 1..] == s[i + 2..];
      }
    }

    // A list that enters such blocks never ends.
    lemma {:induction false} NeverEnds(c: seq<nat>, m: nat, s: seq<nat>)
      requires Shape() && Closed(c) && m < |c|
      ensures !Chain(Block(base, blockSize, c[m]), s)
      decreases |s|
    {
      hide Chain, Block, IndexOf;
      var head := Block(base, blockSize, c[m]);
      BlockIndex(base, blockSize, c[m]);
      if Chain(head, s) {
        ChainTail(head, s);
        BlockIndex(base, blockSize, s[0]);
        var k :| 0 <= k < |c| && words[c[m], 0] == Block(base, blockSize, c[k]);
        NeverEnds(c, k, s[1..]);
      }
    }

    // After a second free of block was[k], the blocks up to it in the list run in a circle.
    lemma CircleCloses(was: seq<nat>, k: nat)
      requires Shape() && k < |was| && (forall i :: 0 <= i < |was| ==> was[i] < totalBlocks)
      requires words[was[k], 0] == First(was)
      requires forall i :: 0 <= i < k ==> words[was[i], 0] == First(was[i + 1..])
      ensures Closed(was[..k + 1])
    {
      hide Block, Chain;
      var c := was[..k + 1];
      forall j | 0 <= j < |c| ensures exists m :: 0 <= m < |c| && words[c[j], 0] == Block(base, blockSize, c[m]) {
        if j == k {
          assert words[c[j], 0] == Block(base, blockSize, c[0]);
        } else {
          assert was[j + 1..][0] == c[j + 1];
          assert words[c[j], 0] == Block(base, blockSize, c[j + 1]);
        }
      }
    }

    lemma CircleNeverEnds(b: nat, was: seq<nat>)
      requires Shape() && b in was && (forall i :: 0 <= i < |was| ==> was[i] < totalBlocks)
      requires forall i, j :: 0 <= i < j < |was| ==> was[i] != was[j]
      requires words[b, 0] == First(was)
      requires forall i :: 0 <= i < |was| && was[i] != b ==> words[was[i], 0] == First(was[i + 1..])
      ensures forall s :: !Chain(Block(base, blockSize, b), s)
    {
      hide Block, Chain, Closed, First;
      var k :| 0 <= k < |was| && was[k] == b;
      CircleCloses(was, k);
      forall s ensures !Chain(Block(base, blockSize, b), s) {
        NeverEnds(was[..k + 1], k, s);
      }
    }

    // What mempool_free refuses is the address of no block.
    lemma NotABlock(p: nat)
      requires Shape()
      requires p == 0 || p < base || p >= base + blockSize * totalBlocks || (p - base) % blockSize != 0
      ensures !IsBlock(p)
    {
      forall b: nat | b < totalBlocks ensures p != Block(base, blockSize, b) {
        BlockIndex(base, blockSize, b);
        Larger(totalBlocks, b + 1, blockSize);
      }
    }

    // mempool_free: the address of any block passes, and the block is put in the list. That is right if and only if
    // the block is live; if it is free already, the list becomes a circle.
    method Free(p: nat) returns (r: Status)
      requires Valid()
      modifies this, words
      ensures r == if IsBlock(p) then Ok else ParamError
      ensures r != Ok ==> Valid() && free == old(free) && live == old(live)
      ensures r == Ok ==> p >= base && freeBlocks == old(freeBlocks) + 1
      ensures r == Ok ==>
                && IndexOf(base, blockSize, p) < totalBlocks
                && p == Block(base, blockSize, IndexOf(base, blockSize, p))
      ensures r == Ok && IndexOf(base, blockSize, p) in old(live) ==>
                Valid() && free == [IndexOf(base, blockSize, p)] + old(free)
                  && live == old(live) - {IndexOf(base, blockSize, p)}
      ensures r == Ok && IndexOf(base, blockSize, p) !in old(live) ==> Shape() && forall s :: !Chain(freeList, s)
    {
      if p == 0 || p < base || p >= base + blockSize * totalBlocks || (p - base) % blockSize != 0 {
        NotABlock(p);
        return ParamError;
      }
      AddressOfBlock(base, blockSize, totalBlocks, p);
      assert IsBlock(p);
      r := PutBack(p, IndexOf(base, blockSize, p));
    }

    method PutBack(p: nat, ghost b: nat) returns (r: Status)
      requires Valid() && b < totalBlocks && p == Block(base, blockSize, b)
      modifies this, words
      ensures r == Ok && freeBlocks == old(freeBlocks) + 1
      ensures b in old(live) ==> Valid() && free == [b] + old(free) && live == old(live) - {b}
      ensures b !in old(live) ==> Shape() && forall s :: !Chain(freeList, s)
    {
      hide Block, IndexOf;
      ghost var was := free;
      Push(p, b);
      freeBlocks, live := freeBlocks + 1, live - {b};
      if b in was { CircleNeverEnds(b, was); }
      r := Ok;
    }
  }

  // mempool_create: the pool gets the lowest free slot; `memory` is what malloc gives, or null.
  method Create(pools: array<Pool?>, size: nat, count: int, memory: nat) returns (slot: int)
    requires pools.Length == MAX_POOLS && memory % 8 == 0
    modifies pools
    ensures slot == -1 <==> size < NODE || count <= 0 || memory == 0 || null !in old(pools[..])
    ensures slot == -1 ==> pools[..] == old(pools[..])
    ensures slot != -1 ==>
              && 0 <= slot < MAX_POOLS && old(pools[slot]) == null
              && (forall i :: 0 <= i < slot ==> old(pools[i]) != null)
              && pools[slot] != null && fresh(pools[slot]) && pools[..] == old(pools[..])[slot := pools[slot]]
              && pools[slot].Valid() && pools[slot].live == {} && pools[slot].freeBlocks == count
              && IsAligned(pools[slot].blockSize, size) && pools[slot].totalBlocks == count
              && pools[slot].base == memory
  {
    if size < NODE || count <= 0 {
      return -1;
    }
    slot := -1;
    for i := 0 to MAX_POOLS
      invariant slot == -1 && forall k :: 0 <= k < i ==> pools[k] != null
    {
      if pools[i] == null {
        slot := i;
        break;
      }
    }
    if slot < 0 {
      return;
    }
    if memory == 0 {
      return -1;
    }
    AlignedSizeIsLeast(size);
    var pool := new Pool(size, count, memory);
    pools[slot] := pool;
  }

  predicate Active(pools: array<Pool?>, id: int)
    requires pools.Length == MAX_POOLS
    reads pools
  {
    0 <= id < MAX_POOLS && pools[id] != null
  }

  // mempool_alloc of a pool by its number
  method AllocFrom(pools: array<Pool?>, id: int) returns (p: nat)
    requires pools.Length == MAX_POOLS && (Active(pools, id) ==> pools[id].Valid())
    modifies if Active(pools, id) then {pools[id]} else {}
    ensures !Active(pools, id) ==> p == 0
    ensures Active(pools, id) ==> pools[id].Valid() && (p == 0 <==> old(pools[id].free) == [])
    ensures Active(pools, id) && p != 0 ==>
              && p == pools[id].First(old(pools[id].free)) && pools[id].free == old(pools[id].free[1..])
              && pools[id].live == old(pools[id].live) + {old(pools[id].free[0])}
  {
    if !Active(pools, id) {
      return 0;
    }
    p := pools[id].Alloc();
  }

  // mempool_free, likewise
  method FreeTo(pools: array<Pool?>, id: int, p: nat) returns (r: Status)
    requires pools.Length == MAX_POOLS && (Active(pools, id) ==> pools[id].Valid())
    modifies if Active(pools, id) then {pools[id], pools[id].words} else {}
    ensures !(0 <= id < MAX_POOLS) || p == 0 ==> r == ParamError
    ensures 0 <= id < MAX_POOLS && p != 0 && !Active(pools, id) ==> r == Error
    ensures Active(pools, id) && p != 0 ==> r == if pools[id].IsBlock(p) then Ok else ParamError
    ensures Active(pools, id) && r == Ok ==>
              && var pool := pools[id];
                 && pool.blockSize > 0 && p >= pool.base
                 && var b := IndexOf(pool.base, pool.blockSize, p);
                    && p == Block(pool.base, pool.blockSize, b) && b < pool.totalBlocks
                    && (b in old(pool.live) ==> pool.Valid() && pool.live == old(pool.live) - {b})
    ensures Active(pools, id) && r != Ok ==> pools[id].Valid() && pools[id].live == old(pools[id].live)
  {
    if !(0 <= id < MAX_POOLS) || p == 0 {
      return ParamError;
    }
    if pools[id] == null {
      return Error;
    }
    r := pools[id].Free(p);
  }
}
