/**
  The slab allocator for byte buffers (internal/eventstream/buf_pool.go), on the heap: a
  block is an array, and a buffer is a block with the length asked for.

  Each operation locks one size class once, so operations are atomic. `live`, `owned` and
  `stock` are history: the blocks handed out and not yet freed, the blocks that belong to a
  class (free or live), and how many it was given, by preallocation or by adoption.
 */
module BufPool {
  type Block = array<bv8>

  datatype Buffer = Buffer(block: Block, len: nat)

  const SIZES: seq<nat> := [4096, 16384, 65536, 262144, 1048576, 4194304, 8388608]

  /** Index of the first class that fits, |SIZES| if none does. */
  function FirstFit(size: nat, start: nat := 0): (i: nat)
    requires start <= |SIZES|
    ensures start <= i <= |SIZES|
    ensures i < |SIZES| ==> SIZES[i] >= size
    ensures forall j :: start <= j < i ==> SIZES[j] < size
    decreases |SIZES| - start
  {
    if start == |SIZES| || SIZES[start] >= size then start else FirstFit(size, start + 1)
  }

  lemma FirstFitStep(size: nat, i: nat)
    requires i < |SIZES|
    ensures FirstFit(size, i) == if SIZES[i] >= size then i else FirstFit(size, i + 1)
    ensures FirstFit(size, |SIZES|) == |SIZES|
  {}

  /** The first class that fits is the smallest one that does, so the space wasted is less
      than any other class would waste; beyond 8 MiB none fits. */
  lemma FirstFitIsSmallest(size: nat)
    ensures FirstFit(size) == |SIZES| <==> size > 8388608
    ensures forall j :: 0 <= j < |SIZES| && SIZES[j] >= size ==>
              FirstFit(size) < |SIZES| && SIZES[FirstFit(size)] <= SIZES[j]
    ensures FirstFit(size) > 0 && FirstFit(size) < |SIZES| ==> SIZES[FirstFit(size) - 1] < size
  {
    assert SIZES[6] == 8388608;
  }

  ghost predicate NoBlockTwice(s: seq<Block>) {
    forall i, j :: 0 <= i < j < |s| ==> s[i] != s[j]
  }

  class SlabClass {
    const size: nat
    var freeList: seq<Block>
    ghost var owned: set<Block>
    ghost var stock: nat

    /** Every owned block is free or live, not both, and none is lost or counted twice. */
    ghost predicate Valid(live: set<Block>)
      reads this
    {
      && NoBlockTwice(freeList)
      && (forall b :: b in owned ==> b.Length == size)
      && (forall b :: b in freeList ==> b in owned && b !in live)
      && (forall b :: b in owned ==> b in freeList || b in live)
      && |owned| == stock
    }

    constructor (size: nat, count: nat)
      ensures this.size == size && Valid({}) && stock == |freeList| == count
      ensures fresh(owned)
    {
      this.size := size;
      this.freeList := [];
      this.owned := {};
      this.stock := 0;
      new;
      for j := 0 to count
        invariant Valid({}) && stock == |freeList| == j
        invariant fresh(owned)
        modifies this
      {
        var b := new bv8[size];
        assert b !in owned;
        freeList := freeList + [b];
        owned := owned + {b};
        stock := stock + 1;
      }
    }

    /** Pops the last free block. */
    method Pop(ghost live: set<Block>) returns (b: Block)
      requires Valid(live) && freeList != []
      modifies this`freeList
      ensures b == old(freeList)[|old(freeList)| - 1] && freeList == old(freeList)[..|old(freeList)| - 1]
      ensures b in owned && b.Length == size && b !in live && Valid(live + {b})
    {
      b := freeList[|freeList| - 1];
      freeList := freeList[..|freeList| - 1];
    }

    /** Takes a block back; one that was not the class's own becomes so. All is well exactly
        unless the block is free already. */
    method Push(b: Block, ghost live: set<Block>)
      requires Valid(live) && b.Length == size
      modifies this
      ensures freeList == old(freeList) + [b]
      ensures owned == old(owned) + {b} && stock == old(stock) + (if b in old(owned) then 0 else 1)
      ensures Valid(live - {b}) <==> b !in old(freeList)
    {
      ghost var was := freeList;
      freeList := freeList + [b];
      stock := stock + (if b in owned then 0 else 1);
      assert b in owned ==> owned + {b} == owned;
      owned := owned + {b};
      assert freeList[|was|] == b;
      if b in was {
        var k :| 0 <= k < |was| && was[k] == b;
        assert freeList[k] == freeList[|was|];
      }
      forall x | x in owned ensures x in freeList || x in live - {b} {
        if x != b && x in was {
          var k :| 0 <= k < |was| && was[k] == x;
          assert freeList[k] == x;
        }
      }
    }

    lemma LiveGrows(live: set<Block>, b: Block)
      requires Valid(live) && b !in freeList
      ensures Valid(live + {b})
    {}

    lemma LiveShrinks(live: set<Block>, b: Block)
      requires Valid(live) && b !in owned
      ensures Valid(live - {b})
    {}
  }

  class BufPool {
    const classes: seq<SlabClass>
    ghost var live: set<Block>

    ghost predicate Valid()
      reads this, classes
    {
      && |classes| == |SIZES|
      && (forall i :: 0 <= i < |classes| ==> classes[i].size == SIZES[i])
      && (forall i :: 0 <= i < |classes| ==> classes[i].Valid(live))
    }

    constructor (count: nat)
      ensures Valid() && live == {}
      ensures forall i :: 0 <= i < |classes| ==> fresh(classes[i]) && classes[i].stock == |classes[i].freeList| == count
    {
      var cs: seq<SlabClass> := [];
      for i := 0 to |SIZES|
        invariant |cs| == i
        invariant forall j :: 0 <= j < i ==> cs[j].size == SIZES[j] && cs[j].Valid({})
        invariant forall j :: 0 <= j < i ==> fresh(cs[j]) && cs[j].stock == |cs[j].freeList| == count
      {
        var c := new SlabClass(SIZES[i], count);
        cs := cs + [c];
      }
      classes := cs;
      live := {};
    }

    /** A buffer of exactly the length asked for. It shares memory with no live buffer; it is
        the last free block of the smallest class that fits, or fresh memory of exactly
        that length if there is no such class or it has run out. */
    method Alloc(size: nat) returns (b: Buffer)
      requires Valid()
      modifies this`live, classes
      ensures Valid() && live == old(live) + {b.block} && b.block !in old(live)
      ensures b.len == size <= b.block.Length
      ensures var i := FirstFit(size);
              if i < |classes| && old(classes[i].freeList) != []
              then old(classes[i].freeList) == classes[i].freeList + [b.block] && b.block in classes[i].owned
              else fresh(b.block) && b.block.Length == size && (i < |classes| ==> unchanged(classes[i]))
      ensures forall j :: 0 <= j < |classes| && j != FirstFit(size) ==> unchanged(classes[j])
      ensures forall j :: 0 <= j < |classes| ==>
                classes[j].owned == old(classes[j].owned) && classes[j].stock == old(classes[j].stock)
    {
      hide NoBlockTwice, FirstFit;
      for i := 0 to |classes|
        invariant FirstFit(size, i) == FirstFit(size)
        invariant live == old(live) && unchanged(classes)
      {
        FirstFitStep(size, i);
        if classes[i].size >= size {
          if |classes[i].freeList| > 0 {
            var block := TakeFree(i);
            return Buffer(block, size);
          }
          break;
        }
      }
      var block := Direct(size);
      return Buffer(block, size);
    }

    /** The other branch: fresh memory of exactly the length asked for. */
    method Direct(size: nat) returns (block: Block)
      requires Valid()
      modifies this`live
      ensures Valid() && live == old(live) + {block} && fresh(block) && block.Length == size
    {
      block := new bv8[size];
      forall j | 0 <= j < |classes| ensures classes[j].Valid(live + {block}) {
        classes[j].LiveGrows(live, block);
      }
      live := live + {block};
    }

    /** The pooled branch of Alloc: pop from class i. */
    method TakeFree(i: nat) returns (block: Block)
      requires Valid() && i < |classes| && classes[i].freeList != []
      modifies this`live, classes[i]
      ensures forall j :: 0 <= j < |classes| ==>
                classes[j].owned == old(classes[j].owned) && classes[j].stock == old(classes[j].stock)
      ensures Valid() && live == old(live) + {block} && block !in old(live) && block.Length == SIZES[i]
      ensures old(classes[i].freeList) == classes[i].freeList + [block] && block in classes[i].owned
      ensures forall j :: 0 <= j < |classes| && j != i ==> unchanged(classes[j])
    {
      Distinct(i);
      block := classes[i].Pop(live);
      forall j | 0 <= j < |classes| && j != i ensures classes[j].Valid(live + {block}) {
        classes[j].LiveGrows(live, block);
      }
      live := live + {block};
    }

    /** Gives a buffer back. Its block joins a class if and only if its capacity is exactly that
        class's size - also when it was allocated directly, or elsewhere. The pool stays in
        order exactly unless the block is free already, that is, freed once too often. */
    method Free(b: Buffer)
      requires Valid()
      modifies this`live, classes
      ensures live == old(live) - {b.block}
      ensures Valid() <==> forall i :: 0 <= i < |classes| ==> b.block !in old(classes[i].freeList)
      ensures old(b.block in live) ==> Valid()
      ensures forall i :: 0 <= i < |classes| ==>
                if SIZES[i] == b.block.Length
                then && classes[i].freeList == old(classes[i].freeList) + [b.block]
                     && classes[i].owned == old(classes[i].owned) + {b.block}
                     && classes[i].stock == old(classes[i].stock) + (if b.block in old(classes[i].owned) then 0 else 1)
                else unchanged(classes[i])
    {
      hide NoBlockTwice;
      for i := 0 to |classes|
        invariant unchanged(classes) && live == old(live)
        invariant forall j :: 0 <= j < i ==> SIZES[j] != b.block.Length
      {
        if classes[i].size == b.block.Length {
          Distinct(i);
          GiveBack(b.block, i);
          return;
        }
      }
      Release(b.block);
    }

    /** The other branch: a block of no class's size is left to the garbage collector. */
    ghost method Release(block: Block)
      requires Valid() && forall i :: 0 <= i < |SIZES| ==> SIZES[i] != block.Length
      modifies this`live
      ensures Valid() && live == old(live) - {block}
      ensures forall j :: 0 <= j < |classes| ==> block !in classes[j].freeList
    {
      FreeInOneClass(block);
      forall j | 0 <= j < |classes| ensures classes[j].Valid(live - {block}) {
        classes[j].LiveShrinks(live, block);
      }
      live := live - {block};
    }

    /** The pooled branch of Free: push onto class i. */
    method GiveBack(block: Block, i: nat)
      requires Valid() && i < |classes| && block.Length == SIZES[i]
      modifies this`live, classes[i]
      ensures live == old(live) - {block}
      ensures Valid() <==> forall j :: 0 <= j < |classes| ==> block !in old(classes[j].freeList)
      ensures old(block in live) ==> Valid()
      ensures classes[i].freeList == old(classes[i].freeList) + [block]
      ensures classes[i].owned == old(classes[i].owned) + {block}
      ensures classes[i].stock == old(classes[i].stock) + (if block in old(classes[i].owned) then 0 else 1)
      ensures forall j :: 0 <= j < |classes| && j != i ==> unchanged(classes[j])
    {
      Distinct(i);
      FreeInOneClass(block);
      classes[i].Push(block, live);
      forall j | 0 <= j < |classes| && j != i ensures classes[j].Valid(live - {block}) {
        classes[j].LiveShrinks(live, block);
      }
      live := live - {block};
    }

    /** A block can be free only in the class of its size, and not while it is live. */
    lemma FreeInOneClass(block: Block)
      requires Valid()
      ensures forall i :: 0 <= i < |classes| && block in classes[i].freeList ==>
                SIZES[i] == block.Length && block !in live
    {}

    /** Classes are distinct objects: their sizes differ. */
    lemma Distinct(i: nat)
      requires |classes| == |SIZES| && forall j :: 0 <= j < |classes| ==> classes[j].size == SIZES[j]
      requires i < |classes|
      ensures forall j :: 0 <= j < |classes| && j != i ==> classes[j] != classes[i] && SIZES[j] != SIZES[i]
    {}

    method Stats() returns (total: nat)
      requires Valid()
      ensures total == 4_096 * |classes[0].freeList| + 16_384 * |classes[1].freeList| + 65_536 * |classes[2].freeList|
                       + 262_144 * |classes[3].freeList| + 1_048_576 * |classes[4].freeList|
                       + 4_194_304 * |classes[5].freeList| + 8_388_608 * |classes[6].freeList|
    {
      total := 0;
      for i := 0 to |classes|
        invariant total == FreeBytes(i)
      {
        total := total + |classes[i].freeList| * classes[i].size;
      }
      assert FreeBytes(1) == 4_096 * |classes[0].freeList|;
      assert FreeBytes(3) == FreeBytes(1) + 16_384 * |classes[1].freeList| + 65_536 * |classes[2].freeList|;
      assert FreeBytes(5) == FreeBytes(3) + 262_144 * |classes[3].freeList| + 1_048_576 * |classes[4].freeList|;
    }

    ghost function FreeBytes(n: nat): nat
      requires n <= |classes|
      reads classes
    {
      if n == 0 then 0 else FreeBytes(n - 1) + |classes[n - 1].freeList| * classes[n - 1].size
    }

    /** Conservation, class by class, after any sequence of operations: the free blocks and
        the live blocks that belong to the class are together the blocks it was given. */
    lemma BlocksAreConserved(i: nat)
      requires Valid() && i < |classes|
      ensures |classes[i].freeList| + |classes[i].owned * live| == classes[i].stock
      ensures forall b :: b in classes[i].freeList ==> b.Length == SIZES[i] && b !in live
    {
      var c := classes[i];
      var free := set b | b in c.freeList;
      CountOnce(c.freeList);
      assert c.owned == free + c.owned * live && free !! c.owned * live;
    }
  }

  lemma {:induction false} CountOnce(s: seq<Block>)
    requires NoBlockTwice(s)
    ensures |(set b | b in s)| == |s|
  {
    if s != [] {
      var n := |s| - 1;
      CountOnce(s[..n]);
      assert (set b | b in s) == (set b | b in s[..n]) + {s[n]};
    }
  }

  // ----- runs

  /** A caller asks for memory, or gives back its i-th buffer. */
  datatype Op = AllocOp(size: nat) | FreeOp(i: nat)

  function BlocksOf(held: seq<Buffer>): set<Block> {
    set i | 0 <= i < |held| :: held[i].block
  }

  /** The caller holds exactly the live blocks, each in one buffer. */
  ghost predicate HoldsLive(held: seq<Buffer>, live: set<Block>) {
    (forall i, j :: 0 <= i < j < |held| ==> held[i].block != held[j].block) && live == BlocksOf(held)
  }

  lemma HeldAndOneMore(held: seq<Buffer>, live: set<Block>, b: Buffer)
    requires HoldsLive(held, live) && b.block !in live
    ensures HoldsLive(held + [b], live + {b.block})
  {
    var more := held + [b];
    assert more[|held|] == b && forall i :: 0 <= i < |held| ==> more[i] == held[i];
    forall x | x in BlocksOf(held) ensures x in BlocksOf(more) {
      var i :| 0 <= i < |held| && held[i].block == x;
      assert more[i].block == x;
    }
    assert BlocksOf(more) == BlocksOf(held) + {b.block};
  }

  lemma HeldAndOneLess(held: seq<Buffer>, live: set<Block>, k: nat)
    requires HoldsLive(held, live) && k < |held|
    ensures held[k].block in live && HoldsLive(held[..k] + held[k + 1..], live - {held[k].block})
  {
    var less := held[..k] + held[k + 1..];
    assert forall i :: 0 <= i < |less| ==> less[i] == held[if i < k then i else i + 1];
    forall x | x in BlocksOf(held) && x != held[k].block ensures x in BlocksOf(less) {
      var i :| 0 <= i < |held| && held[i].block == x;
      assert less[if i < k then i else i - 1] == held[i];
    }
    forall x | x in BlocksOf(less) ensures x in BlocksOf(held) && x != held[k].block {
      var i :| 0 <= i < |less| && less[i].block == x;
      assert held[if i < k then i else i + 1].block == x;
    }
    assert BlocksOf(less) == BlocksOf(held) - {held[k].block};
  }

  method ServeOne(pool: BufPool, held: seq<Buffer>, op: Op) returns (after: seq<Buffer>)
    requires pool.Valid() && HoldsLive(held, pool.live)
    modifies pool`live, pool.classes
    ensures pool.Valid() && HoldsLive(after, pool.live)
    ensures (forall b :: b in held ==> b.len <= b.block.Length) ==> forall b :: b in after ==> b.len <= b.block.Length
    ensures forall i :: 0 <= i < |pool.classes| ==> pool.classes[i].stock >= old(pool.classes[i].stock)
  {
    hide NoBlockTwice, HoldsLive;
    after := held;
    match op
    case AllocOp(size) =>
      ghost var live := pool.live;
      var b := pool.Alloc(size);
      HeldAndOneMore(held, live, b);
      after := held + [b];
    case FreeOp(k) =>
      if k < |held| {
        HeldAndOneLess(held, pool.live, k);
        pool.Free(held[k]);
        after := held[..k] + held[k + 1..];
      }
  }

  /** Whatever a caller asks for and gives back, in any order, as long as it gives back what it
      holds: no two buffers it holds ever share memory, and no block of any class is lost. */
  method Serve(pool: BufPool, ops: seq<Op>) returns (held: seq<Buffer>)
    requires pool.Valid() && pool.live == {}
    modifies pool`live, pool.classes
    ensures pool.Valid() && HoldsLive(held, pool.live)
    ensures forall b :: b in held ==> b.len <= b.block.Length
    ensures forall i :: 0 <= i < |pool.classes| ==>
              && |pool.classes[i].freeList| + |pool.classes[i].owned * pool.live| == pool.classes[i].stock
              && pool.classes[i].stock >= old(pool.classes[i].stock)
  {
    held := [];
    assert HoldsLive(held, pool.live);
    hide NoBlockTwice, HoldsLive;
    for n := 0 to |ops|
      invariant pool.Valid() && HoldsLive(held, pool.live)
      invariant forall b :: b in held ==> b.len <= b.block.Length
      invariant forall i :: 0 <= i < |pool.classes| ==> pool.classes[i].stock >= old(pool.classes[i].stock)
    {
      held := ServeOne(pool, held, ops[n]);
    }
    forall i | 0 <= i < |pool.classes|
      ensures |pool.classes[i].freeList| + |pool.classes[i].owned * pool.live| == pool.classes[i].stock
    {
      pool.BlocksAreConserved(i);
    }
  }
}
