/** The fixed-size pool allocator of concrete/alloc-fixed/fixed-alloc-pool.c: free blocks are linked through their own
  first words, and blocks that were never given out are not touched. */
module Pools {
  import opened Sorting
  import opened Options

  // The chain from head runs through the free list and ends with the value of numInit.
  ghost predicate Linked(head: nat, numInit: nat, memory: seq<nat>, free: seq<nat>) {
    && head == (if free == [] then numInit else free[0])
    && forall i: nat | i < |free| :: LinkAt(numInit, memory, free, i)
  }

  ghost predicate LinkAt(numInit: nat, memory: seq<nat>, free: seq<nat>, i: nat)
    requires i < |free|
  {
    free[i] < |memory| && memory[free[i]] == if i + 1 < |free| then free[i + 1] else numInit
  }

  // Of the blocks below numInit every one is live or free, and not both.
  ghost predicate Divided(live: set<nat>, free: seq<nat>, numInit: nat) {
    && AllDifferent(free) && (forall b <- free :: b < numInit)
    && (forall b: nat :: b in live <==> b < numInit && b !in free)
  }

  // A block taken from the chain.
  lemma Pop(head: nat, numInit: nat, memory: seq<nat>, free: seq<nat>, live: set<nat>)
    requires Linked(head, numInit, memory, free) && Divided(live, free, numInit) && free != []
    ensures head == free[0] < numInit && head < |memory| && head !in live
    ensures Linked(memory[head], numInit, memory, free[1..]) && Divided(live + {head}, free[1..], numInit)
  {
    assert free[0] in free;
    assert free == [free[0]] + free[1..];
    assert LinkAt(numInit, memory, free, 0);
    forall i: nat | i < |free[1..]|
      ensures LinkAt(numInit, memory, free[1..], i)
    {
      assert LinkAt(numInit, memory, free, i + 1);
    }
    forall b | b in free[1..] ensures b in free {}
  }

  // A block put back.
  lemma Push(b: nat, head: nat, numInit: nat, memory: seq<nat>, free: seq<nat>, live: set<nat>)
    requires Linked(head, numInit, memory, free) && Divided(live, free, numInit) && b in live && b < |memory|
    ensures Linked(b, numInit, memory[b := head], [b] + free) && Divided(live - {b}, [b] + free, numInit)
  {
    forall i | 0 <= i < |free| ensures free[i] != b { assert free[i] in free; }
    var free', memory' := [b] + free, memory[b := head];
    forall i: nat | i < |free'| ensures LinkAt(numInit, memory', free', i) {
      if i > 0 { assert LinkAt(numInit, memory, free, i - 1); }
    }
  }

  // Writing into a live block does not disturb the chain.
  lemma Undisturbed(b: nat, v: nat, head: nat, numInit: nat, memory: seq<nat>, free: seq<nat>, live: set<nat>)
    requires Linked(head, numInit, memory, free) && Divided(live, free, numInit) && b in live && b < |memory|
    ensures Linked(head, numInit, memory[b := v], free)
  {
    forall i | 0 <= i < |free| ensures free[i] != b { assert free[i] in free; }
    var memory' := memory[b := v];
    forall i: nat | i < |free| ensures LinkAt(numInit, memory', free, i) { assert LinkAt(numInit, memory, free, i); }
  }

  lemma FirstMember(s: seq<nat>)
    ensures s != [] ==> s[0] in s
  {
  }

  lemma {:induction false} Count(live: set<nat>, free: seq<nat>, n: nat)
    requires Divided(live, free, n)
    ensures |live| == n - |free|
    decreases n
  {
    if n == 0 {
      FirstMember(free);
      assert live == {};
    } else if n - 1 in free {
      var k :| 0 <= k < |free| && free[k] == n - 1;
      var rest := free[..k] + free[k + 1..];
      forall b: nat ensures b in rest <==> b in free && b != n - 1 {
        if b in free && b != n - 1 {
          var i :| 0 <= i < |free| && free[i] == b;
          assert i < k ==> rest[i] == b;
          assert i > k ==> rest[i - 1] == b;
        }
      }
      Count(live, rest, n - 1);
    } else {
      Count(live - {n - 1}, free, n - 1);
    }
  }

  class Pool {
    const base: nat
    const blockSize: nat
    const blockCount: nat
    var head: nat
    var numInit: nat
    const memory: array<nat>     // the first word of every block
    ghost var free: seq<nat>     // the free blocks that were given out before, in the order of the chain
    ghost var live: set<nat>     // the blocks in the hands of the user

    ghost predicate Valid()
      reads this, memory
    {
      && 0 < blockSize && 0 < blockCount == memory.Length && numInit <= blockCount
      && Linked(head, numInit, memory[..], free) && Divided(live, free, numInit)
    }

    // pool_init; the memory may hold anything.
    constructor (base: nat, blockSize: nat, memory: array<nat>)
      requires 0 < blockSize && 0 < memory.Length
      ensures Valid() && live == {} && this.memory == memory && blockCount == memory.Length
      ensures this.base == base && this.blockSize == blockSize
    {
      this.base, this.blockSize, this.blockCount := base, blockSize, memory.Length;
      this.memory := memory;
      head, numInit := 0, 0;
      free, live := [], {};
    }

    function Address(b: nat): nat {
      base + b * blockSize
    }

    // pool_index
    method Index(addr: nat, ghost b: nat) returns (i: nat)
      requires Valid() && b < blockCount && addr == Address(b)
      ensures i == b
    {
      Divides(b, blockSize);
      i := addr - base;
      assert i % blockSize == 0;
      i := i / blockSize;
    }

    // pool_alloc: nothing if and only if all blocks are live; otherwise block b, which was not: the one freed last if
    // there is any, else the first that was never used.
    method Alloc() returns (r: Option<nat>, ghost b: nat)
      requires Valid()
      modifies this`head, this`numInit, this`free, this`live
      ensures Valid()
      ensures r.None? <==> |old(live)| == blockCount
      ensures r.None? ==> live == old(live) && free == old(free) && numInit == old(numInit)
      ensures r.Some? ==> b < blockCount && b !in old(live) && r.value == Address(b) && live == old(live) + {b}
      ensures r.Some? ==> if old(free) == [] then b == old(numInit) && free == [] && numInit == b + 1
                          else b == old(free)[0] && free == old(free)[1..] && numInit == old(numInit)
    {
      Count(live, free, numInit);
      var h := head;
      b := h;
      if free != [] { Pop(head, numInit, memory[..], free, live); }
      assert h <= blockCount;
      if h == blockCount { return None, b; }
      r := Some(base + h * blockSize);
      if h >= numInit {
        numInit := numInit + 1;
        head := head + 1;
      } else {
        head := memory[h];
        free := free[1..];
      }
      live := live + {h};
    }

    // pool_free of live block b
    method Free(addr: nat, ghost b: nat)
      requires Valid() && b in live && addr == Address(b)
      modifies this`head, this`free, this`live, memory
      ensures Valid() && numInit == old(numInit)
      ensures live == old(live) - {b} && free == [b] + old(free)
      ensures memory[..] == old(memory[..])[b := old(head)]
    {
      Push(b, head, numInit, memory[..], free, live);
      var i := Index(addr, b);
      assert i < numInit;
      var h := head;
      head := i;
      memory[i] := h;
      free := [b] + free;
      live := live - {b};
    }

    // The user may write what he likes into a live block.
    method Scribble(b: nat, v: nat)
      requires Valid() && b in live
      modifies memory
      ensures Valid() && memory[..] == old(memory[..])[b := v]
    {
      Undisturbed(b, v, head, numInit, memory[..], free, live);
      memory[b] := v;
    }
  }

  lemma Divides(b: nat, size: nat)
    requires size > 0
    ensures b * size % size == 0 && b * size / size == b
  {
    var x := b * size;
    var q, r := x / size, x % size;
    assert x == q * size + r;
    if b > q { Larger(q, b, size); }
    if b < q { Larger(b, q, size); }
  }

  lemma {:induction false} Larger(a: nat, b: nat, c: nat)
    requires a < b
    ensures a * c + c <= b * c
  {
    if b > a + 1 { Larger(a, b - 1, c); }
    assert (b - 1) * c + c == b * c;
  }
}
