/** The chained pool of fixed-size blocks with a ring of free indices (src/libsrpc_fixblockalloc.c). */
module FixPool {
  import opened Arith

  /** sizeof(srpc_pool_fba_t) and the size of one ring entry. */
  const HEADER: nat := 48
  const ENTRY: nat := 4
  /** The ranges of uintptr_t and of uint32_t, the type of an index. */
  const ADDRESSES: nat := 0x1_0000_0000_0000_0000
  const INDICES: nat := 0x1_0000_0000

  function RoundUp(n: nat, to: nat): nat
    requires to > 0
  {
    (n + to - 1) / to * to
  }

  /** One pool; `base` is its address. */
  datatype Node = Node(
    base: nat, size: nat, offset: nat, blkSize: nat, nums: nat, alloc: nat, free: nat, fifo: seq<nat>)

  datatype Base = Failed | Address(a: nat)

  /** srpc_pool_create at the address that malloc returned. */
  function Create(base: nat, num: nat, elm: nat): Node {
    var blk := RoundUp(elm, 16);
    var fifo := RoundUp((num + 1) * ENTRY, 64);
    var ring := seq(num + 1, i requires 0 <= i < num + 1 => if i < num then i else 0);
    Node(base, blk * num + HEADER + fifo, fifo, blk, num, 0, num, ring)
  }

  function NextIndex(p: Node, i: nat): nat {
    if i + 1 >= p.nums + 1 then 0 else i + 1
  }

  /** The free indices in the order in which they will be handed out. */
  ghost function Available(p: Node): seq<nat>
    requires p.alloc <= |p.fifo| && p.free <= |p.fifo|
  {
    if p.alloc <= p.free then p.fifo[p.alloc..p.free] else p.fifo[p.alloc..] + p.fifo[..p.free]
  }

  /** The ring holds each free index once. */
  ghost predicate NodeOk(p: Node) {
    && 0 < p.nums < INDICES && p.blkSize > 0 && p.base + p.size <= ADDRESSES
    && |p.fifo| == p.nums + 1 && p.alloc <= p.nums && p.free <= p.nums
    && p.size == p.blkSize * p.nums + HEADER + p.offset && p.offset > 0
    && Distinct(Available(p))
    && forall i :: 0 <= i < |Available(p)| ==> Available(p)[i] < p.nums
  }

  ghost predicate IsLive(p: Node, blk: nat)
    requires NodeOk(p)
  {
    blk < p.nums && blk !in Available(p)
  }

  function AddressOf(p: Node, blk: nat): nat { p.base + p.offset + blk * p.blkSize }

  lemma CreateOk(base: nat, num: nat, elm: nat)
    requires 0 < num < INDICES && elm > 0 && base + Create(base, num, elm).size <= ADDRESSES
    ensures NodeOk(Create(base, num, elm)) && forall blk: nat :: !IsLive(Create(base, num, elm), blk)
  {
    var p := Create(base, num, elm);
    RoundPositive(elm, 16);
    RoundPositive((num + 1) * ENTRY, 64);
    forall i | 0 <= i < num ensures Available(p)[i] == i {
    }
    forall blk: nat | blk < num ensures blk in Available(p) {
      assert Available(p)[blk] == blk;
    }
  }

  lemma RoundPositive(n: nat, to: nat)
    requires n > 0 && to > 0
    ensures RoundUp(n, to) > 0
  {
    assert (n + to - 1) / to >= 1;
  }

  // ---------------------------------------------------------------- one pool

  function Taken(p: Node): Node { p.(alloc := NextIndex(p, p.alloc)) }

  function Given(p: Node, blk: nat): Node
    requires p.free < |p.fifo|
  {
    p.(free := NextIndex(p, p.free), fifo := p.fifo[p.free := blk])
  }

  /** Taking removes the first available index. */
  lemma TakeOk(p: Node)
    requires NodeOk(p) && p.alloc != p.free
    ensures NodeOk(Taken(p)) && Available(p) == [p.fifo[p.alloc]] + Available(Taken(p))
    ensures forall blk :: IsLive(Taken(p), blk) <==> IsLive(p, blk) || blk == p.fifo[p.alloc]
    ensures !IsLive(p, p.fifo[p.alloc])
  {
    var a, t := Available(p), Available(Taken(p));
    FirstAvailable(p);
    TailDistinct(a, p.fifo[p.alloc], t);
  }

  lemma FirstAvailable(p: Node)
    requires NodeOk(p) && p.alloc != p.free
    ensures Taken(p).alloc <= |p.fifo| && Available(p) == [p.fifo[p.alloc]] + Available(Taken(p))
  {
    hide Distinct;
  }

  lemma TailDistinct(a: seq<nat>, x: nat, t: seq<nat>)
    requires a == [x] + t && Distinct(a)
    ensures Distinct(t) && x !in t && x in a && forall y :: y in t <==> y in a && y != x
    ensures forall i :: 0 <= i < |t| ==> t[i] == a[i + 1]
  {
    assert a[0] == x;
    forall i | 0 <= i < |t| ensures t[i] == a[i + 1] {
    }
  }

  /** A live index fits: the ring has room for all indices. */
  lemma GiveOk(p: Node, blk: nat)
    requires NodeOk(p) && IsLive(p, blk)
    ensures NextIndex(p, p.free) != p.alloc
    ensures NodeOk(Given(p, blk)) && Available(Given(p, blk)) == Available(p) + [blk]
    ensures forall b :: IsLive(Given(p, blk), b) <==> IsLive(p, b) && b != blk
  {
    var a := Available(p);
    FewerThan(a, p.nums, blk);
    var g := Available(Given(p, blk));
    assert g == a + [blk];
    forall b ensures b in g <==> b in a || b == blk {
    }
  }

  /** Giving back an index that is not handed out puts it into the ring twice. */
  lemma GiveTwice(p: Node, blk: nat)
    requires NodeOk(p) && blk in Available(p) && NextIndex(p, p.free) != p.alloc
    ensures !NodeOk(Given(p, blk))
  {
    var a, q := Available(p), Given(p, blk);
    var i :| 0 <= i < |a| && a[i] == blk;
    assert Available(q) == a + [blk];
    assert Available(q)[i] == Available(q)[|a|];
  }

  /** Distinct numbers below n that leave one out are fewer than n. */
  lemma FewerThan(l: seq<nat>, n: nat, out: nat)
    requires Distinct(l) && out < n && out !in l && forall i :: 0 <= i < |l| ==> l[i] < n
    ensures |l| < n
  {
    ElementsOf(l);
    AtMost(Elements(l) + {out}, n);
  }

  /** The index that srpc_pool_free computes for a pointer: 64-bit subtraction and division, cut to 32 bits. */
  function IndexFor(p: Node, ptr: nat): nat
    requires p.blkSize > 0
  {
    (ptr - p.base - p.offset) % ADDRESSES / p.blkSize % INDICES
  }

  /** The index is recovered from the address. */
  lemma IndexOf(p: Node, blk: nat)
    requires NodeOk(p) && blk < p.nums
    ensures p.base < AddressOf(p, blk) < p.base + p.size
    ensures IndexFor(p, AddressOf(p, blk)) == blk
    ensures AddressOf(p, blk) + p.blkSize <= p.base + p.size
  {
    hide NodeOk, IndexFor;
    NodeSize(p);
    EndOf(blk, p.nums, p.blkSize);
    Recovered(p, blk, blk * p.blkSize);
  }

  lemma NodeSize(p: Node)
    requires NodeOk(p)
    ensures p.size == p.blkSize * p.nums + HEADER + p.offset && p.offset > 0
    ensures 0 < p.nums < INDICES && p.blkSize > 0 && p.base + p.size <= ADDRESSES
  {
    hide Distinct, Available;
  }

  lemma EndOf(blk: nat, nums: nat, size: nat)
    requires blk < nums
    ensures 0 <= blk * size && blk * size + size <= size * nums
  {
    MulMono(blk + 1, nums, size);
    assert (blk + 1) * size == blk * size + size;
  }

  lemma Recovered(p: Node, blk: nat, n: nat)
    requires p.blkSize > 0 && blk < INDICES && n == blk * p.blkSize < ADDRESSES
    ensures IndexFor(p, p.base + p.offset + n) == blk
  {
    ModSmall(ADDRESSES, n);
    ModSmall(INDICES, blk);
    DivMul(blk, p.blkSize);
  }

  /** Different live blocks of one pool do not overlap. */
  lemma BlocksApart(p: Node, a: nat, b: nat)
    requires a < b
    ensures AddressOf(p, a) + p.blkSize <= AddressOf(p, b)
  {
    MulMono(a + 1, b, p.blkSize);
    assert (a + 1) * p.blkSize == a * p.blkSize + p.blkSize;
  }

  /** What rounding the ring to 64 bytes leaves over. */
  function Slack(num: nat): int { RoundUp((num + 1) * ENTRY, 64) - (num + 1) * ENTRY }

  /**
   * The blocks start behind the ring exactly when the rounding leaves room for the header, which the
   * offset does not count.
   */
  lemma RingIsSafeExactly(base: nat, num: nat, elm: nat)
    requires num > 0
    ensures Slack(num) >= HEADER
      <==> forall blk: nat :: blk < num ==> base + HEADER + (num + 1) * ENTRY <= AddressOf(Create(base, num, elm), blk)
  {
    hide RoundUp;
    var p := Create(base, num, elm);
    FirstAddress(p);
    forall blk: nat | blk < num ensures AddressOf(p, blk) >= AddressOf(p, 0) {
      MulMono(0, blk, p.blkSize);
    }
  }

  lemma FirstAddress(p: Node)
    ensures AddressOf(p, 0) == p.base + p.offset
  {
  }

  /** It does for the 128 blocks of the only pool; it does not for 15. */
  lemma SlackOf128()
    ensures Slack(128) == 60 && Slack(15) == 0
  {
  }

  // ---------------------------------------------------------------- the chain

  /** The chain through `nextpool`, from the first pool on. */
  class Chain {
    var pools: seq<Node>

    ghost predicate Valid()
      reads this
    {
      pools != [] && ChainOk(pools)
    }

    constructor (base: nat, num: nat, elm: nat)
      requires 0 < num < INDICES && elm > 0 && base + Create(base, num, elm).size <= ADDRESSES
      ensures Valid() && forall ptr :: !Live(pools, ptr)
    {
      pools := [Create(base, num, elm)];
      new;
      CreateOk(base, num, elm);
    }

    /** srpc_pool_alloc; `base` is what malloc answers if the chain has to grow. */
    method Alloc(base: Base) returns (ptr: Base)
      requires Valid()
      requires base.Address? ==> Fits(pools, base.a)
      modifies this
      ensures Valid()
      ensures ptr.Failed? ==> base.Failed? && pools == old(pools)
      ensures ptr.Failed? ==> forall i :: 0 <= i < |pools| ==> pools[i].alloc == pools[i].free
      ensures ptr.Address? ==> !Live(old(pools), ptr.a)
      ensures forall x :: Live(pools, x) <==> Live(old(pools), x) || ptr == Address(x)
    {
      hide NodeOk, Live, Create;
      var i := 0;
      while true
        invariant Valid() && i < |pools|
        invariant forall j :: 0 <= j < i ==> pools[j].alloc == pools[j].free
        invariant pools == old(pools) || (i + 1 == |pools| && pools[i].alloc != pools[i].free)
        invariant forall x :: Live(pools, x) <==> Live(old(pools), x)
        decreases |pools| - i, if pools == old(pools) then 1 else 0
      {
        var p := pools[i];
        if p.alloc != p.free {
          Takes(pools, i);
          ptr := Address(AddressOf(p, p.fifo[p.alloc]));
          pools := pools[i := Taken(p)];
          return;
        }
        if i + 1 == |pools| {
          if base.Failed? { return Failed; }
          Grows(pools, base.a);
          pools := pools + [Grown(p, base.a)];
        }
        i := i + 1;
      }
    }

    /** srpc_pool_free of any pointer: the chain stays valid unless a block is given back that is not handed out. */
    method Free(ptr: nat) returns (rc: Freeing)
      requires Valid()
      modifies this
      ensures rc == (if ptr == 0 then Invalid else FreeingOf(old(pools), ptr))
      ensures pools == if rc == Freed then AfterFree(old(pools), ptr) else old(pools)
      ensures Valid() <==> (rc == Freed ==> GivesLive(old(pools), ptr))
      ensures Live(old(pools), ptr) ==> rc == Freed && Valid()
      ensures Live(old(pools), ptr) ==> forall x :: Live(pools, x) <==> Live(old(pools), x) && x != ptr
    {
      hide NodeOk, Live, IsLive, Apart;
      LiveIsFreed(pools, ptr);
      ValidExactly(pools, ptr);
      if ptr == 0 { return Invalid; }
      var i := 0;
      while i < |pools| && !Inside(pools[i], ptr)
        invariant i <= |pools| && PoolFor(pools, ptr, i) == PoolFor(pools, ptr, 0)
      {
        i := i + 1;
      }
      if i == |pools| { return Unknown; }
      var p := pools[i];
      NodeFacts(p);
      var b := IndexFor(p, ptr);
      if b >= p.nums { return BadIndex; }
      if NextIndex(p, p.free) == p.alloc { return NoRoom; }
      pools := pools[i := Given(p, b)];
      return Freed;
    }
  }

  /** 0, -EINVAL, -EAFNOSUPPORT, -EBADF and -ENOSPC. */
  datatype Freeing = Freed | Invalid | Unknown | BadIndex | NoRoom

  /** The first pool from i on whose range holds the pointer. */
  function PoolFor(pools: seq<Node>, ptr: nat, i: nat): (r: nat)
    ensures r <= |pools| || r == i
    ensures r < |pools| ==> Inside(pools[r], ptr)
    decreases |pools| - i
  {
    if i >= |pools| || Inside(pools[i], ptr) then i else PoolFor(pools, ptr, i + 1)
  }

  ghost function FreeingOf(pools: seq<Node>, ptr: nat): Freeing
    requires ChainOk(pools)
  {
    var i := PoolFor(pools, ptr, 0);
    if i >= |pools| then Unknown
    else if IndexFor(pools[i], ptr) >= pools[i].nums then BadIndex
    else if NextIndex(pools[i], pools[i].free) == pools[i].alloc then NoRoom
    else Freed
  }

  /** The index found for the pointer goes to the ring's end, whatever it is. */
  ghost function AfterFree(pools: seq<Node>, ptr: nat): seq<Node>
    requires ChainOk(pools) && PoolFor(pools, ptr, 0) < |pools|
  {
    var i := PoolFor(pools, ptr, 0);
    pools[i := Given(pools[i], IndexFor(pools[i], ptr))]
  }

  /** The block that the pointer lies in, or is taken to lie in, is handed out. */
  ghost predicate GivesLive(pools: seq<Node>, ptr: nat)
    requires ChainOk(pools) && PoolFor(pools, ptr, 0) < |pools|
  {
    var i := PoolFor(pools, ptr, 0);
    IsLive(pools[i], IndexFor(pools[i], ptr))
  }

  /** The range test of srpc_pool_free. */
  predicate Inside(p: Node, ptr: nat) { p.base < ptr < p.base + p.size }

  /** Two pools occupy different memory. */
  ghost predicate Apart(p: Node, q: Node) { p.base + p.size <= q.base || q.base + q.size <= p.base }

  /** The pool that srpc_pool_alloc adds behind p. */
  function Grown(p: Node, base: nat): Node { Create(base, p.nums, p.blkSize) }

  /** malloc's answer is memory that no pool of the chain occupies. */
  ghost predicate Fits(pools: seq<Node>, base: nat)
    requires pools != []
  {
    var g := Grown(pools[|pools| - 1], base);
    base + g.size <= ADDRESSES && forall i :: 0 <= i < |pools| ==> Apart(pools[i], g)
  }

  ghost predicate ChainOk(pools: seq<Node>) {
    && (forall i :: 0 <= i < |pools| ==> NodeOk(pools[i]))
    && (forall i, j :: 0 <= i < j < |pools| ==> Apart(pools[i], pools[j]))
  }

  ghost predicate LiveIn(pools: seq<Node>, ptr: nat, i: nat, blk: nat) {
    i < |pools| && NodeOk(pools[i]) && IsLive(pools[i], blk) && ptr == AddressOf(pools[i], blk)
  }

  /** ptr is the address of a block that is handed out. */
  ghost predicate Live(pools: seq<Node>, ptr: nat) {
    exists i, blk :: LiveIn(pools, ptr, i, blk)
  }

  /** An address belongs to one block of one pool. */
  lemma OneHome(pools: seq<Node>, i: nat, a: nat, j: nat, b: nat)
    requires ChainOk(pools) && i < |pools| && j < |pools| && a < pools[i].nums && b < pools[j].nums
    requires AddressOf(pools[i], a) == AddressOf(pools[j], b)
    ensures i == j && a == b
  {
    IndexOf(pools[i], a);
    IndexOf(pools[j], b);
    assert i < j ==> Apart(pools[i], pools[j]);
    assert j < i ==> Apart(pools[j], pools[i]);
  }

  /** Blocks that are handed out never overlap, in one pool or across the chain. */
  lemma LiveApart(pools: seq<Node>, x: nat, i: nat, a: nat, y: nat, j: nat, b: nat)
    requires ChainOk(pools) && LiveIn(pools, x, i, a) && LiveIn(pools, y, j, b) && x < y
    ensures x + pools[i].blkSize <= y
  {
    IndexOf(pools[i], a);
    IndexOf(pools[j], b);
    assert i < j ==> Apart(pools[i], pools[j]);
    assert j < i ==> Apart(pools[j], pools[i]);
    if i == j {
      if a < b { BlocksApart(pools[i], a, b); }
      if b < a { BlocksApart(pools[i], b, a); }
    }
  }

  lemma LiveAt(pools: seq<Node>, i: nat, blk: nat)
    requires ChainOk(pools) && i < |pools| && blk < pools[i].nums
    ensures Live(pools, AddressOf(pools[i], blk)) <==> IsLive(pools[i], blk)
  {
    hide AddressOf, Apart;
    var ptr := AddressOf(pools[i], blk);
    if IsLive(pools[i], blk) { assert LiveIn(pools, ptr, i, blk); }
    if Live(pools, ptr) {
      var j, b :| LiveIn(pools, ptr, j, b);
      OneHome(pools, i, blk, j, b);
    }
  }

  /** A pool changes which of its blocks are handed out, and nothing else. */
  lemma Changes(pools: seq<Node>, i: nat, p: Node, blk: nat, live: bool)
    requires ChainOk(pools) && i < |pools| && NodeOk(p) && blk < p.nums
    requires p == pools[i].(alloc := p.alloc, free := p.free, fifo := p.fifo)
    requires forall b: nat :: IsLive(p, b) <==> (if b == blk then live else IsLive(pools[i], b))
    ensures ChainOk(pools[i := p])
    ensures forall x :: Live(pools[i := p], x) <==> (if x == AddressOf(p, blk) then live else Live(pools, x))
  {
    hide NodeOk, IsLive;
    var q := pools[i := p];
    assert ChainOk(q);
    forall x ensures Live(q, x) <==> (if x == AddressOf(p, blk) then live else Live(pools, x)) {
      ChangesOne(pools, i, p, blk, live, x);
    }
  }

  lemma ChangesOne(pools: seq<Node>, i: nat, p: Node, blk: nat, live: bool, x: nat)
    requires ChainOk(pools) && i < |pools| && NodeOk(p) && blk < p.nums && ChainOk(pools[i := p]) && NodeOk(pools[i])
    requires p == pools[i].(alloc := p.alloc, free := p.free, fifo := p.fifo)
    requires forall b: nat :: IsLive(p, b) <==> (if b == blk then live else IsLive(pools[i], b))
    ensures Live(pools[i := p], x) <==> (if x == AddressOf(p, blk) then live else Live(pools, x))
  {
    hide ChainOk, Apart, NodeOk, IsLive;
    var q := pools[i := p];
    assert forall b :: AddressOf(p, b) == AddressOf(pools[i], b);
    hide AddressOf;
    if x == AddressOf(p, blk) {
      LiveAt(q, i, blk);
    } else {
      if Live(pools, x) {
        var j, b :| LiveIn(pools, x, j, b);
        assert LiveIn(q, x, j, b);
      }
      if Live(q, x) {
        var j, b :| LiveIn(q, x, j, b);
        assert LiveIn(pools, x, j, b);
      }
    }
  }

  lemma Takes(pools: seq<Node>, i: nat)
    requires ChainOk(pools) && i < |pools| && pools[i].alloc != pools[i].free
    ensures pools[i].alloc < |pools[i].fifo|
    ensures var p := pools[i]; var ptr := AddressOf(p, p.fifo[p.alloc]);
            && ChainOk(pools[i := Taken(p)])
            && !Live(pools, ptr)
            && forall x :: Live(pools[i := Taken(p)], x) <==> Live(pools, x) || x == ptr
  {
    hide Live, Apart;
    var p := pools[i];
    TakeOk(p);
    assert IsLive(Taken(p), p.fifo[p.alloc]);
    LiveAt(pools, i, p.fifo[p.alloc]);
    Changes(pools, i, Taken(p), p.fifo[p.alloc], true);
  }

  lemma Gives(pools: seq<Node>, i: nat, blk: nat)
    requires ChainOk(pools) && i < |pools| && NodeOk(pools[i]) && IsLive(pools[i], blk)
    ensures pools[i].free < |pools[i].fifo| && NextIndex(pools[i], pools[i].free) != pools[i].alloc
    ensures var p := pools[i]; var ptr := AddressOf(p, blk);
            && ChainOk(pools[i := Given(p, blk)])
            && forall x :: Live(pools[i := Given(p, blk)], x) <==> Live(pools, x) && x != ptr
  {
    hide Live, Apart;
    var p := pools[i];
    GiveOk(p, blk);
    var q := Given(p, blk);
    assert forall b: nat :: IsLive(q, b) <==> (if b == blk then false else IsLive(p, b));
    Changes(pools, i, q, blk, false);
    assert AddressOf(q, blk) == AddressOf(p, blk);
  }

  lemma Grows(pools: seq<Node>, base: nat)
    requires ChainOk(pools) && pools != [] && Fits(pools, base)
    ensures var g := Grown(pools[|pools| - 1], base); var q := pools + [g];
            && ChainOk(q) && g.alloc != g.free
            && forall x :: Live(q, x) <==> Live(pools, x)
  {
    var last := pools[|pools| - 1];
    var g := Grown(last, base);
    var q := pools + [g];
    CreateOk(base, last.nums, last.blkSize);
    hide NodeOk, IsLive, Apart;
    forall x ensures Live(q, x) <==> Live(pools, x) {
      if Live(pools, x) {
        var j, b :| LiveIn(pools, x, j, b);
        assert LiveIn(q, x, j, b);
      }
      if Live(q, x) {
        var j, b :| LiveIn(q, x, j, b);
        assert LiveIn(pools, x, j, b);
      }
    }
  }

  lemma Home(pools: seq<Node>, ptr: nat) returns (i: nat, blk: nat)
    requires Live(pools, ptr)
    ensures LiveIn(pools, ptr, i, blk)
  {
    i, blk :| LiveIn(pools, ptr, i, blk);
  }

  lemma NodeFacts(p: Node)
    requires NodeOk(p)
    ensures p.blkSize > 0 && p.free < |p.fifo|
  {
  }

  /** The first pool whose memory contains the pointer of a live block is its own. */
  lemma HomeIsFirst(pools: seq<Node>, ptr: nat, home: nat, blk: nat)
    requires ChainOk(pools) && LiveIn(pools, ptr, home, blk)
    ensures PoolFor(pools, ptr, 0) == home && IndexFor(pools[home], ptr) == blk
  {
    var i := PoolFor(pools, ptr, 0);
    IndexOf(pools[home], blk);
    FirstInside(pools, ptr, 0, home);
  }

  lemma {:induction false} FirstInside(pools: seq<Node>, ptr: nat, i: nat, home: nat)
    requires i <= home < |pools| && Inside(pools[home], ptr)
    ensures PoolFor(pools, ptr, i) <= home
    decreases home - i
  {
    if i < home { FirstInside(pools, ptr, i + 1, home); }
  }

  lemma LiveIsFreed(pools: seq<Node>, ptr: nat)
    requires ChainOk(pools)
    ensures Live(pools, ptr) ==>
      && ptr > 0 && FreeingOf(pools, ptr) == Freed && GivesLive(pools, ptr)
      && ChainOk(AfterFree(pools, ptr))
      && forall x :: Live(AfterFree(pools, ptr), x) <==> Live(pools, x) && x != ptr
  {
    hide NodeOk, IsLive, Apart, AddressOf, ChainOk;
    if Live(pools, ptr) {
      var i, blk := Home(pools, ptr);
      LiveFacts(pools, ptr, i, blk);
      HomeIsFirst(pools, ptr, i, blk);
      Gives(pools, i, blk);
    }
  }

  lemma LiveFacts(pools: seq<Node>, ptr: nat, i: nat, blk: nat)
    requires LiveIn(pools, ptr, i, blk)
    ensures i < |pools| && NodeOk(pools[i]) && IsLive(pools[i], blk) && blk < pools[i].nums
    ensures ptr == AddressOf(pools[i], blk) && ptr > 0
  {
    hide Distinct, Available;
  }

  /** The chain survives exactly when the index given back was handed out. */
  lemma ValidExactly(pools: seq<Node>, ptr: nat)
    requires ChainOk(pools)
    ensures FreeingOf(pools, ptr) == Freed ==> (ChainOk(AfterFree(pools, ptr)) <==> GivesLive(pools, ptr))
  {
    hide Apart;
    if FreeingOf(pools, ptr) == Freed {
      var i := PoolFor(pools, ptr, 0);
      var blk := IndexFor(pools[i], ptr);
      if IsLive(pools[i], blk) {
        Gives(pools, i, blk);
      } else {
        GiveTwice(pools[i], blk);
        assert AfterFree(pools, ptr)[i] == Given(pools[i], blk);
      }
    }
  }
}
