/** The fixed-size block pool.  An address is a number and zero is the null pointer. */
module BlockPool {
  import opened Collections
  import opened Arith

  datatype MemoryBlock = MemoryBlock(data: nat, size: nat)

  const NO_BLOCK := MemoryBlock(0, 0)

  /** Where the storage is, the free list with its top last, and which blocks are handed out. */
  datatype Pool = Pool(storage: nat, blockSize: nat, blockCount: nat, freeList: seq<nat>, inUse: seq<bool>)

  function Offset(blockSize: nat, i: nat): nat {
    blockSize * i
  }

  function BlockAt(p: Pool, i: nat): MemoryBlock {
    MemoryBlock(p.storage + Offset(p.blockSize, i), p.blockSize)
  }

  /** Block `i` is handed out, and `block` is it. */
  predicate IsOutstanding(p: Pool, block: MemoryBlock, i: nat) {
    i < |p.inUse| && p.inUse[i] && block == BlockAt(p, i)
  }

  /** What the callers hold. */
  function Outstanding(p: Pool): set<MemoryBlock> {
    set i | 0 <= i < |p.inUse| && p.inUse[i] :: BlockAt(p, i)
  }

  lemma OutstandingIs(p: Pool)
    ensures forall b :: b in Outstanding(p) <==> exists i: nat :: IsOutstanding(p, b, i)
  {
    forall b | b in Outstanding(p) ensures exists i: nat :: IsOutstanding(p, b, i) {
      var i :| 0 <= i < |p.inUse| && p.inUse[i] && BlockAt(p, i) == b;
      assert IsOutstanding(p, b, i);
    }
  }

  predicate Inv(p: Pool) {
    && p.storage > 0 && p.blockSize > 0 && |p.inUse| == p.blockCount
    && Distinct(p.freeList)
    && (forall k {:trigger p.freeList[k]} :: 0 <= k < |p.freeList| ==>
      p.freeList[k] < p.blockCount && !p.inUse[p.freeList[k]])
    && (forall i {:trigger p.inUse[i]} :: 0 <= i < p.blockCount && !p.inUse[i] ==> i in p.freeList)
  }

  predicate Disjoint(a: MemoryBlock, b: MemoryBlock) {
    a.data + a.size <= b.data || b.data + b.size <= a.data
  }

  /** Outstanding blocks lie inside the storage and do not overlap, over their whole extent. */
  lemma OutstandingAreDisjoint(p: Pool)
    requires Inv(p)
    ensures forall b :: b in Outstanding(p) ==>
      b.size == p.blockSize && p.storage <= b.data && b.data + b.size <= p.storage + p.blockSize * p.blockCount
    ensures forall a, b :: a in Outstanding(p) && b in Outstanding(p) && a != b ==> Disjoint(a, b)
  {
    OutstandingIs(p);
    assert |p.inUse| == p.blockCount;
    hide Outstanding, Inv;
    forall b | b in Outstanding(p)
      ensures b.size == p.blockSize && p.storage <= b.data && b.data + b.size <= p.storage + p.blockSize * p.blockCount
    {
      var i: nat :| IsOutstanding(p, b, i);
      MulStep(p.blockSize, i, |p.inUse|);
    }
    forall a, b | a in Outstanding(p) && b in Outstanding(p) && a != b ensures Disjoint(a, b) {
      var i: nat :| IsOutstanding(p, a, i);
      var j: nat :| IsOutstanding(p, b, j);
      OffsetsApart(p.blockSize, i, j);
    }
  }

  lemma OffsetsApart(n: nat, i: nat, j: nat)
    ensures i < j ==> Offset(n, i) + n <= Offset(n, j)
    ensures j < i ==> Offset(n, j) + n <= Offset(n, i)
  {
    if i < j { MulStep(n, i, j); }
    if j < i { MulStep(n, j, i); }
  }

  lemma OneIndex(p: Pool, i: nat, j: nat)
    requires p.blockSize > 0 && BlockAt(p, i) == BlockAt(p, j)
    ensures i == j
  {
    OffsetsApart(p.blockSize, i, j);
  }

  // ---- what the operations promise ----

  function Allocated(p: Pool): (Pool, MemoryBlock)
    requires Inv(p)
  {
    if p.freeList == [] then (p, NO_BLOCK)
    else
      var index := p.freeList[|p.freeList| - 1];
      (p.(freeList := p.freeList[..|p.freeList| - 1], inUse := p.inUse[index := true]), BlockAt(p, index))
  }

  /** An outstanding block goes back to the top of the free list; any other leaves the pool as it is. */
  ghost function Deallocated(p: Pool, block: MemoryBlock): Pool {
    if block !in Outstanding(p) then p
    else
      OutstandingIs(p);
      var i: nat :| IsOutstanding(p, block, i);
      p.(freeList := p.freeList + [i], inUse := p.inUse[i := false])
  }

  lemma AllocateKeepsInv(p: Pool)
    requires Inv(p)
    ensures Inv(Allocated(p).0)
  {
  }

  /** A fresh block is valid and was not outstanding; there is one unless the pool is exhausted. */
  lemma AllocateHandsOut(p: Pool)
    requires Inv(p)
    ensures var (r, block) := Allocated(p);
      if |Outstanding(p)| == p.blockCount then r == p && block == NO_BLOCK
      else block.data != 0 && block !in Outstanding(p) && Outstanding(r) == Outstanding(p) + {block}
  {
    Conservation(p);
    var (r, block) := Allocated(p);
    if p.freeList != [] {
      var index := p.freeList[|p.freeList| - 1];
      hide Inv, Distinct;
      MarkOne(p, r, index, true);
    } else {
      assert |Outstanding(p)| == p.blockCount;
    }
  }

  /** Changing one flag changes one block, whichever pool state they are read in. */
  lemma MarkOne(p: Pool, r: Pool, index: nat, flag: bool)
    requires p.blockSize == r.blockSize > 0 && p.storage == r.storage && index < |p.inUse|
      && r.inUse == p.inUse[index := flag]
    requires p.inUse[index] != flag
    ensures BlockAt(p, index) in if flag then Outstanding(r) - Outstanding(p) else Outstanding(p) - Outstanding(r)
    ensures Outstanding(r) == if flag then Outstanding(p) + {BlockAt(p, index)}
      else Outstanding(p) - {BlockAt(p, index)}
  {
    OutstandingIs(p);
    OutstandingIs(r);
    hide Outstanding, Offset;
    var block := BlockAt(p, index);
    var with, without := if flag then r else p, if flag then p else r;
    assert IsOutstanding(with, block, index);
    forall i: nat ensures !IsOutstanding(without, block, i) {
      if IsOutstanding(without, block, i) { OneIndex(p, i, index); }
    }
    forall b | b != block ensures b in Outstanding(r) <==> b in Outstanding(p) {
      forall i: nat ensures IsOutstanding(p, b, i) <==> IsOutstanding(r, b, i) { }
    }
  }

  lemma DeallocateKeepsInv(p: Pool, block: MemoryBlock)
    requires Inv(p)
    ensures Inv(Deallocated(p, block))
  {
    hide Outstanding, Offset;
  }

  lemma DeallocateTakesBack(p: Pool, block: MemoryBlock)
    requires Inv(p)
    ensures Outstanding(Deallocated(p, block)) == Outstanding(p) - {block}
  {
    if block in Outstanding(p) {
      var r := Deallocated(p, block);
      MarkOne(p, r, r.freeList[|p.freeList|], false);
    }
  }

  /** A block just returned is the next to be handed out, and then the pool is as it was. */
  lemma ReturnedBlockIsNext(p: Pool, block: MemoryBlock)
    requires Inv(p) && block in Outstanding(p)
    ensures Inv(Deallocated(p, block)) && Allocated(Deallocated(p, block)) == (p, block)
  {
    DeallocateKeepsInv(p, block);
    var r := Deallocated(p, block);
    var index := r.freeList[|r.freeList| - 1];
    assert IsOutstanding(p, block, index);
    assert r.freeList[..|r.freeList| - 1] == p.freeList;
    assert p.inUse[index := false][index := true] == p.inUse;
  }

  // ---- nothing is lost ----

  function Used(inUse: seq<bool>): (used: set<nat>)
    ensures forall i :: i in used <==> 0 <= i < |inUse| && inUse[i]
  {
    set i | 0 <= i < |inUse| && inUse[i]
  }

  lemma {:induction false} BlocksOf(p: Pool, used: set<nat>, blocks: set<MemoryBlock>)
    requires p.blockSize > 0
    requires forall b :: b in blocks <==> exists i :: i in used && b == BlockAt(p, i)
    ensures |blocks| == |used|
    decreases used
  {
    if used == {} {
      assert blocks == {};
    } else {
      var i :| i in used;
      forall j | j in used && BlockAt(p, j) == BlockAt(p, i) ensures j == i { OneIndex(p, i, j); }
      BlocksOf(p, used - {i}, blocks - {BlockAt(p, i)});
    }
  }

  /** Free and outstanding blocks together are always all blocks. */
  lemma Conservation(p: Pool)
    requires Inv(p)
    ensures |p.freeList| + |Outstanding(p)| == p.blockCount
  {
    var free := UpTo(p.blockCount) - Used(p.inUse);
    DistinctSize(p.freeList, free);
    BlocksOf(p, Used(p.inUse), Outstanding(p));
    assert Used(p.inUse) <= UpTo(p.blockCount);
    assert |free| == |UpTo(p.blockCount)| - |Used(p.inUse)|;
  }

  // ---- whole runs ----

  datatype Call = Allocate | Deallocate(block: MemoryBlock)

  ghost function Make(p: Pool, call: Call): (r: Pool)
    requires Inv(p)
    ensures Inv(r)
  {
    match call
    case Allocate => AllocateKeepsInv(p); Allocated(p).0
    case Deallocate(block) => DeallocateKeepsInv(p, block); Deallocated(p, block)
  }

  ghost function MakeAll(p: Pool, calls: seq<Call>): (r: Pool)
    requires Inv(p)
    ensures Inv(r)
    decreases |calls|
  {
    if calls == [] then p else MakeAll(Make(p, calls[0]), calls[1..])
  }

  /** The blocks a caller holds, reckoned from the results of its calls alone: what Allocate gave
      it, less what it has given back. */
  ghost function Held(p: Pool, calls: seq<Call>, held: set<MemoryBlock>): set<MemoryBlock>
    requires Inv(p)
    decreases |calls|
  {
    if calls == [] then held
    else
      Held(Make(p, calls[0]), calls[1..],
        match calls[0]
        case Allocate => if Allocated(p).1.data == 0 then held else held + {Allocated(p).1}
        case Deallocate(block) => held - {block})
  }

  /** Over any sequence of calls, bogus blocks and double frees included, the pool's own books agree
      with the callers', and free and held blocks together are all blocks. */
  lemma {:induction false} BooksAgree(p: Pool, calls: seq<Call>)
    requires Inv(p)
    ensures Outstanding(MakeAll(p, calls)) == Held(p, calls, Outstanding(p))
    ensures |MakeAll(p, calls).freeList| + |Held(p, calls, Outstanding(p))| == MakeAll(p, calls).blockCount
    decreases |calls|
  {
    Conservation(MakeAll(p, calls));
    hide Inv, Outstanding, Deallocated, Allocated;
    if calls != [] {
      if calls[0].Allocate? {
        AllocateHandsOut(p);
      } else {
        DeallocateTakesBack(p, calls[0].block);
      }
      BooksAgree(Make(p, calls[0]), calls[1..]);
    }
  }

  // ---- the pool ----

  class FixedBlockPool {
    const storage: nat
    const blockSize: nat
    const blockCount: nat
    var freeList: seq<nat>
    const inUse: array<bool>

    function View(): Pool
      reads this, inUse
    {
      Pool(storage, blockSize, blockCount, freeList, inUse[..])
    }

    ghost predicate Valid()
      reads this, inUse
    {
      Inv(View())
    }

    /** A zero size or count is an error; otherwise every block is free, the first one on top. */
    static method Create(storage: nat, blockSize: nat, blockCount: nat) returns (pool: FixedBlockPool?)
      requires storage > 0
      ensures pool == null <==> blockSize == 0 || blockCount == 0
      ensures pool != null ==>
        && fresh(pool) && fresh(pool.inUse) && pool.Valid() && Outstanding(pool.View()) == {}
        && pool.storage == storage && pool.blockSize == blockSize && pool.blockCount == blockCount
        && Allocated(pool.View()).1 == MemoryBlock(storage, blockSize)
    {
      if blockSize == 0 {
        return null;
      }
      if blockCount == 0 {
        return null;
      }
      pool := new FixedBlockPool(storage, blockSize, blockCount);
      assert Offset(blockSize, 0) == 0;
    }

    constructor (storage: nat, blockSize: nat, blockCount: nat)
      requires storage > 0 && blockSize > 0 && blockCount > 0
      ensures Valid() && fresh(inUse) && Outstanding(View()) == {}
      ensures this.storage == storage && this.blockSize == blockSize && this.blockCount == blockCount
      ensures freeList == seq(blockCount, i => blockCount - 1 - i)
    {
      this.storage, this.blockSize, this.blockCount := storage, blockSize, blockCount;
      inUse := new bool[blockCount](_ => false);
      freeList := [];
      new;
      for i := 0 to blockCount
        invariant freeList == seq(i, k => blockCount - 1 - k)
        invariant forall k :: 0 <= k < blockCount ==> !inUse[k]
      {
        freeList := freeList + [blockCount - 1 - i];
      }
      forall i | 0 <= i < blockCount ensures i in freeList {
        assert freeList[blockCount - 1 - i] == i;
      }
    }

    method Allocate() returns (block: MemoryBlock)
      requires Valid()
      modifies this`freeList, inUse
      ensures Valid() && (View(), block) == Allocated(old(View()))
    {
      AllocateKeepsInv(View());
      if freeList == [] {
        return NO_BLOCK;
      }
      var index := freeList[|freeList| - 1];
      freeList := freeList[..|freeList| - 1];
      inUse[index] := true;
      block := MemoryBlock(storage + blockSize * index, blockSize);
    }

    /** The size is right and the address falls into some block, handed out or not; so every block of the
        pool is owned. */
    predicate Owns(block: MemoryBlock): (owned: bool)
      requires Valid()
      reads this, inUse
      ensures owned <==> block.size == blockSize && exists i: nat :: InBlock(View(), block.data, i)
      ensures forall i {:trigger BlockAt(View(), i)} :: 0 <= i < blockCount && block == BlockAt(View(), i) ==> owned
    {
      InSomeBlock(View(), block.data);
      BlocksStart(View());
      && block.data != 0
      && storage <= block.data < storage + blockSize * blockCount
      && block.size == blockSize
    }

    /** True exactly for a block now handed out; a foreign block, a pointer into the middle of a block
        and a block already returned are refused and change nothing. */
    method Deallocate(block: MemoryBlock) returns (ok: bool)
      requires Valid()
      modifies this`freeList, inUse
      ensures Valid() && ok == (block in Outstanding(old(View())))
      ensures View() == Deallocated(old(View()), block)
    {
      DeallocateKeepsInv(View(), block);
      FindBlock(View(), block);
      if !Owns(block) {
        return false;
      }
      var offset := block.data - storage;
      if offset % blockSize != 0 {
        return false;
      }
      var index := offset / blockSize;
      if !inUse[index] {
        return false;
      }
      inUse[index] := false;
      freeList := freeList + [index];
      return true;
    }

    method AvailableBlocks() returns (n: nat)
      requires Valid()
      ensures n + |Outstanding(View())| == blockCount
    {
      Conservation(View());
      n := |freeList|;
    }
  }

  lemma QuotientFits(n: nat, count: nat, x: nat)
    requires n > 0 && x < n * count
    ensures x / n < count && x == n * (x / n) + x % n
  {
    assert x == n * (x / n) + x % n;
    if x / n > count { MulStep(n, count, x / n); }
  }

  /** The address is that of a byte of block `i`. */
  predicate InBlock(p: Pool, address: nat, i: nat) {
    i < p.blockCount && BlockAt(p, i).data <= address < BlockAt(p, i).data + p.blockSize
  }

  /** The blocks cover the storage. */
  lemma InSomeBlock(p: Pool, address: nat)
    requires p.blockSize > 0
    ensures (exists i: nat :: InBlock(p, address, i)) <==>
      p.storage <= address < p.storage + p.blockSize * p.blockCount
  {
    if p.storage <= address < p.storage + p.blockSize * p.blockCount {
      QuotientFits(p.blockSize, p.blockCount, address - p.storage);
      assert InBlock(p, address, (address - p.storage) / p.blockSize);
    }
    forall i: nat | InBlock(p, address, i) ensures p.storage <= address < p.storage + p.blockSize * p.blockCount {
      MulStep(p.blockSize, i, p.blockCount);
    }
  }

  lemma BlocksStart(p: Pool)
    requires p.blockSize > 0
    ensures forall i {:trigger BlockAt(p, i)} :: 0 <= i < p.blockCount ==> InBlock(p, BlockAt(p, i).data, i)
  {
  }

  /** An outstanding block is the one that its offset divides out to. */
  lemma IndexOfBlock(p: Pool, block: MemoryBlock, i: nat)
    requires Inv(p) && IsOutstanding(p, block, i)
    ensures var x := block.data - p.storage;
      0 <= x < p.blockSize * p.blockCount && x % p.blockSize == 0 && x / p.blockSize == i
  {
    assert |p.inUse| == p.blockCount && p.blockSize > 0;
    hide Inv;
    MulStep(p.blockSize, i, p.blockCount);
    DivisionOf(p.blockSize, block.data - p.storage, i, 0);
  }

  /** Deallocate's arithmetic finds the one block that `block` can be. */
  lemma FindBlock(p: Pool, block: MemoryBlock)
    requires Inv(p)
    ensures block in Outstanding(p) <==>
      && p.storage <= block.data < p.storage + p.blockSize * p.blockCount && block.size == p.blockSize
      && (block.data - p.storage) % p.blockSize == 0
      && (block.data - p.storage) / p.blockSize < p.blockCount
      && p.inUse[(block.data - p.storage) / p.blockSize]
    ensures p.storage <= block.data < p.storage + p.blockSize * p.blockCount ==>
      (block.data - p.storage) / p.blockSize < p.blockCount
    ensures block in Outstanding(p) ==>
      Deallocated(p, block) == var i := (block.data - p.storage) / p.blockSize;
        p.(freeList := p.freeList + [i], inUse := p.inUse[i := false])
  {
    OutstandingIs(p);
    assert |p.inUse| == p.blockCount && p.blockSize > 0;
    var x := block.data - p.storage;
    if 0 <= x < p.blockSize * p.blockCount {
      QuotientFits(p.blockSize, p.blockCount, x);
    }
    forall i: nat | IsOutstanding(p, block, i)
      ensures 0 <= x < p.blockSize * p.blockCount && x % p.blockSize == 0 && x / p.blockSize == i
    {
      IndexOfBlock(p, block, i);
    }
    hide Inv, Outstanding;
    if 0 <= x < p.blockSize * p.blockCount && x % p.blockSize == 0 && block.size == p.blockSize
      && p.inUse[x / p.blockSize]
    {
      assert x == Offset(p.blockSize, x / p.blockSize);
      assert IsOutstanding(p, block, x / p.blockSize);
    }
  }
}
