/** The block walk: what the ghost shape of a heap must be, read off the headers alone. */
module Blocks {
  import opened Arith
  import opened Mapping
  import opened Heap
  import opened FreeLists
  import opened Invariant
  import opened ReallocProof

  /** The headers met by walking from p to the end of the heap by block sizes. */
  ghost function Walk(mem: seq<Line>, p: nat): (r: set<nat>)
    ensures forall b :: b in r ==> p <= b < |mem|
    decreases |mem| - p
  {
    if p >= |mem| then {}
    else if mem[p].size == 0 then {p}
    else {p} + Walk(mem, p + mem[p].size)
  }

  lemma {:induction false} WalkFrom(mem: seq<Line>, blocks: set<nat>, p: nat)
    requires Tiled(mem, blocks) && (p == |mem| || p in blocks)
    ensures Walk(mem, p) == set b | b in blocks && b >= p
    decreases |mem| - p
  {
    if p < |mem| {
      assert Follows(mem, blocks, p);
      WalkFrom(mem, blocks, p + mem[p].size);
    }
  }

  /** A heap has at most one tiling: the walk finds it. */
  lemma WalkIsTiling(mem: seq<Line>, blocks: set<nat>)
    requires Tiled(mem, blocks)
    ensures Walk(mem, 0) == blocks
  {
    WalkFrom(mem, blocks, 0);
  }

  // ---------------------------------------------------------------- the shape-free view

  /** The invariant of a heap whose lock is free. */
  ghost predicate Good(h: Heap) { exists s :: Wf(h, s) }

  /** What clients know: every live block with its size, owners, type and dc mark. */
  ghost function View(h: Heap): map<nat, Entry> {
    Live(h.mem, Walk(h.mem, 0))
  }

  /** No two adjacent blocks are free, or: every free block is announced to the block behind it. */
  ghost predicate Keeps(h: Heap, rule: Rule) { Ruled(h.mem, Walk(h.mem, 0), rule) }

  /** A coalesced heap: both rules. */
  ghost predicate Tight(h: Heap) { Keeps(h, Separated) && Keeps(h, Announced) }

  lemma WfWalk(h: Heap, s: Shape)
    requires Wf(h, s)
    ensures Walk(h.mem, 0) == s.blocks && InRange(h.mem, s.blocks) && Good(h)
    ensures View(h) == Live(h.mem, s.blocks)
    ensures forall rule :: Keeps(h, rule) <==> Ruled(h.mem, s.blocks, rule)
  {
    WalkIsTiling(h.mem, s.blocks);
    hide Lists, Bits, PrevSizes, Chained, Clients, Ruled;
  }

  lemma ShapeOf(h: Heap) returns (s: Shape)
    requires Good(h)
    ensures Wf(h, s) && Walk(h.mem, 0) == s.blocks && InRange(h.mem, s.blocks)
    ensures View(h) == Live(h.mem, s.blocks)
    ensures forall rule :: Keeps(h, rule) <==> Ruled(h.mem, s.blocks, rule)
  {
    hide Wf, Ruled;
    s :| Wf(h, s);
    WfWalk(h, s);
  }

  /** used_bytes is always the sum of the live payload sizes, and no log record survives an operation. */
  lemma UsedIsTotal(h: Heap)
    requires Good(h)
    ensures h.used == Total(View(h)) && h.log == []
  {
    var s := ShapeOf(h);
    hide Sound, Clients;
  }

  // ---------------------------------------------------------------- tiling in terms of the walk

  /** The blocks tile the heap: each ends where the next starts, the last at the end of the heap. */
  lemma TilesExactly(h: Heap, b: nat)
    requires Good(h) && b in Walk(h.mem, 0)
    ensures h.mem[b].size >= MIN_BLOCK && h.mem[b].sig == MAGIC48
    ensures b + h.mem[b].size == |h.mem| || b + h.mem[b].size in Walk(h.mem, 0)
    ensures forall c :: c in Walk(h.mem, 0) && b < c ==> b + h.mem[b].size <= c
    ensures h.mem[b].prevFree ==>
      && 0 < h.mem[b].prevSize <= b
      && b - h.mem[b].prevSize in Walk(h.mem, 0)
      && h.mem[b - h.mem[b].prevSize].size == h.mem[b].prevSize
  {
    var s := ShapeOf(h);
    hide Lists, Bits, Clients, Walk;
    assert Follows(h.mem, s.blocks, b) && PrevRight(h.mem, s.blocks, b);
  }

  // ---------------------------------------------------------------- exact free lists

  /** The list that starts at p, followed for at most n steps. */
  ghost function ListFrom(mem: seq<Line>, p: Ptr, n: nat): (l: seq<nat>)
    ensures forall i :: 0 <= i < |l| ==> l[i] < |mem|
    decreases n
  {
    if p.Null? || n == 0 || p.u >= |mem| then []
    else [p.u] + ListFrom(mem, mem[p.u].next, n - 1)
  }

  /** The free list of class k; a list cannot be longer than the heap. */
  ghost function FreeList(h: Heap, k: nat): (l: seq<nat>)
    requires k < CLASSES
    ensures forall i :: 0 <= i < |l| ==> l[i] < |h.mem|
  {
    ListFrom(h.mem, h.matrix[k], |h.mem|)
  }

  /** l is a doubly linked list that starts and ends in NULL. */
  ghost predicate DoublyLinked(mem: seq<Line>, l: seq<nat>)
    requires forall i :: 0 <= i < |l| ==> l[i] < |mem|
  {
    && (forall i {:trigger Joined(mem, l, i)} :: 0 <= i < |l| - 1 ==> Joined(mem, l, i))
    && (l != [] ==> mem[l[0]].prev == Null && mem[l[|l| - 1]].next == Null)
  }

  ghost predicate Joined(mem: seq<Line>, l: seq<nat>, i: nat)
    requires i + 1 < |l| && forall i :: 0 <= i < |l| ==> l[i] < |mem|
  {
    mem[l[i]].next == At(l[i + 1]) && mem[l[i + 1]].prev == At(l[i])
  }

  /** The part of a list from p on: linked, ending in NULL, with falling stamps below p's. */
  ghost predicate ChainFrom(mem: seq<Line>, f: set<nat>, st: map<nat, nat>, p: nat, l: seq<nat>)
    requires forall b :: b in f ==> b < |mem| && b in st
    requires forall i :: 0 <= i < |l| ==> l[i] < |mem|
    requires p < |mem| && p in st
  {
    && |l| > 0 && l[0] == p
    && (forall i :: 0 <= i < |l| ==> l[i] in f && Class(mem[l[i]].size) == Class(mem[p].size))
    && (forall i :: 0 < i < |l| ==> l[i] in st && st[l[i]] < st[p])
    && Distinct(l)
    && (forall i {:trigger Joined(mem, l, i)} :: 0 <= i < |l| - 1 ==> Joined(mem, l, i))
    && mem[l[|l| - 1]].next == Null
  }

  /** The blocks with smaller stamps: there are fewer of them at every step along a list. */
  ghost function Below(f: set<nat>, st: map<nat, nat>, n: nat): set<nat>
    requires forall b :: b in f ==> b in st
  {
    set b | b in f && st[b] < n
  }

  lemma {:induction false} ListIsChain(mem: seq<Line>, matrix: Matrix, f: set<nat>, st: map<nat, nat>, p: nat, n: nat)
    requires Lists(mem, matrix, f, st) && p in f && |Below(f, st, st[p])| < n
    ensures ChainFrom(mem, f, st, p, ListFrom(mem, At(p), n))
    decreases n
  {
    hide Class;
    assert Linked(mem, matrix, f, st, p);
    var l := ListFrom(mem, At(p), n);
    if mem[p].next.At? {
      var q := mem[p].next.u;
      assert q in Below(f, st, st[p]) && q !in Below(f, st, st[q]);
      SubsetSmaller(Below(f, st, st[q]), Below(f, st, st[p]), q);
      ListIsChain(mem, matrix, f, st, q, n - 1);
      var rest := ListFrom(mem, At(q), n - 1);
      assert l == [p] + rest;
      ChainCons(mem, f, st, p, q, rest);
    }
  }

  lemma ChainCons(mem: seq<Line>, f: set<nat>, st: map<nat, nat>, p: nat, q: nat, rest: seq<nat>)
    requires forall b :: b in f ==> b < |mem| && b in st
    requires forall i :: 0 <= i < |rest| ==> rest[i] < |mem|
    requires p in f && q in f && ChainFrom(mem, f, st, q, rest)
    requires Class(mem[q].size) == Class(mem[p].size) && st[q] < st[p]
    requires mem[p].next == At(q) && mem[q].prev == At(p)
    ensures ChainFrom(mem, f, st, p, [p] + rest)
  {
    hide Class;
    var l := [p] + rest;
    forall i | 0 <= i < |l| - 1 ensures Joined(mem, l, i) {
      if i > 0 { assert Joined(mem, rest, i - 1); }
    }
  }

  lemma SubsetSmaller(a: set<nat>, b: set<nat>, x: nat)
    requires a <= b && x in b && x !in a
    ensures |a| < |b|
  {
    SubsetSize(a, b - {x});
  }

  lemma {:induction false} SubsetSize(a: set<nat>, b: set<nat>)
    requires a <= b
    ensures |a| <= |b|
  {
    if a != {} {
      var x :| x in a;
      SubsetSize(a - {x}, b - {x});
    }
  }

  /** Every block is on the list that its class heads. */
  lemma {:induction false} HeadReaches(h: Heap, s: Shape, b: nat, l: seq<nat>)
    requires Sound(h, s, NOBODY) && b in s.free && b < |h.mem|
    requires forall i :: 0 <= i < |l| ==> l[i] < |h.mem| && l[i] in s.free
    requires DoublyLinked(h.mem, l)
    requires l != [] ==> h.matrix[Class(h.mem[b].size)] == At(l[0])
    requires l == [] ==> h.matrix[Class(h.mem[b].size)] == Null
    ensures b in l
    decreases s.clock - s.stamp[b]
  {
    hide Class, Tiled, PrevSizes, Bits;
    assert Linked(h.mem, h.matrix, s.free, s.stamp, b);
    if h.mem[b].prev.At? {
      var a := h.mem[b].prev.u;
      HeadReaches(h, s, a, l);
      var i :| 0 <= i < |l| && l[i] == a;
      if i + 1 < |l| { assert Joined(h.mem, l, i); }
    } else {
      assert b == l[0];
    }
  }

  /** l lists exactly the free blocks of class k among `blocks`. */
  ghost predicate ListsClass(mem: seq<Line>, blocks: set<nat>, k: nat, l: seq<nat>)
    requires InRange(mem, blocks)
  {
    forall b :: b in l <==> b in blocks && mem[b].free && Class(mem[b].size) == k
  }

  /**
   * Each class list holds exactly the free blocks of that class, each once, doubly linked and
   * ending in NULL; its bitmap bits are set exactly when there is something to find.
   */
  lemma FreeListsExact(h: Heap, k: nat)
    requires Good(h) && k < CLASSES
    ensures ListsClass(h.mem, Walk(h.mem, 0), k, FreeList(h, k))
    ensures Distinct(FreeList(h, k)) && DoublyLinked(h.mem, FreeList(h, k))
    ensures FreeList(h, k) != [] <==> k % 16 in h.sl[k / 16]
    ensures k / 16 in h.fl <==> exists i :: 0 <= i < 16 && i in h.sl[k / 16]
  {
    hide Walk, Class, Tiled, PrevSizes, Total, Lists, DoublyLinked, ListFrom, Distinct, ListsClass, Bits;
    var s := ShapeOf(h);
    FreeFlags(h, s);
    RowBits(h, k / 16);
    ListExact(h, s, k);
    ListMembers(h, s, k);
  }

  lemma RowBits(h: Heap, r: nat)
    requires r < FLI_MAX && Bits(h.matrix, h.sl, h.fl)
    ensures r in h.fl <==> exists i :: 0 <= i < 16 && i in h.sl[r]
  {
    if r in h.fl {
      var i :| i in h.sl[r];
      assert 0 <= i < 16;
    }
  }

  lemma FreeFlags(h: Heap, s: Shape)
    requires Wf(h, s) && InRange(h.mem, s.blocks)
    ensures forall b :: b in s.free <==> b in s.blocks && h.mem[b].free
  {
    hide Lists, Bits, Tiled, PrevSizes, Owned;
    forall b | b in s.blocks ensures b in s.free <==> h.mem[b].free {
      assert ClientOk(h.mem, s.free, b);
    }
  }

  lemma ListExact(h: Heap, s: Shape, k: nat)
    requires Sound(h, s, NOBODY) && k < CLASSES && InRange(h.mem, s.blocks)
    ensures Distinct(FreeList(h, k)) && DoublyLinked(h.mem, FreeList(h, k))
    ensures FreeList(h, k) != [] ==> h.matrix[k] == At(FreeList(h, k)[0])
    ensures FreeList(h, k) == [] ==> h.matrix[k] == Null
    ensures forall i :: 0 <= i < |FreeList(h, k)| ==>
      FreeList(h, k)[i] in s.free && Class(h.mem[FreeList(h, k)[i]].size) == k
    ensures FreeList(h, k) != [] <==> k % 16 in h.sl[k / 16]
  {
    hide Walk, Class, Tiled, PrevSizes, Distinct, ListFrom;
    if h.matrix[k].At? {
      var p := h.matrix[k].u;
      var lower := Below(s.free, s.stamp, s.stamp[p]);
      AtMost(s.free, |h.mem|);
      SubsetSmaller(lower, s.free, p);
      ListIsChain(h.mem, h.matrix, s.free, s.stamp, p, |h.mem|);
    } else {
      NoList(h.mem, |h.mem|);
    }
  }

  lemma NoList(mem: seq<Line>, n: nat)
    ensures ListFrom(mem, Null, n) == [] && Distinct([])
  {
  }

  lemma ListMembers(h: Heap, s: Shape, k: nat)
    requires Sound(h, s, NOBODY) && k < CLASSES && InRange(h.mem, s.blocks)
    requires forall b :: b in s.free <==> b in s.blocks && h.mem[b].free
    ensures ListsClass(h.mem, s.blocks, k, FreeList(h, k))
  {
    hide Walk, Class, Sound, ListFrom, Distinct, DoublyLinked, FreeList;
    ListExact(h, s, k);
    var l := FreeList(h, k);
    forall b | b in s.free && Class(h.mem[b].size) == k ensures b in l {
      HeadReaches(h, s, b, l);
    }
  }

  // ---------------------------------------------------------------- the empty heap

  /** A heap without live blocks and without adjacent free blocks is one free block, with nothing in use. */
  lemma EmptyIsWhole(h: Heap)
    requires Good(h) && Keeps(h, Separated) && View(h) == map[]
    ensures |h.mem| > 0 && Walk(h.mem, 0) == {0} && h.mem[0].free && h.mem[0].size == |h.mem| && h.used == 0
  {
    var s := ShapeOf(h);
    UsedIsTotal(h);
    hide Lists, Bits, PrevSizes, Clients, Walk;
    forall b | b in s.blocks ensures h.mem[b].free {
      if !h.mem[b].free { IsLive(h, s, b); }
    }
    assert Obeys(h.mem, 0, Separated) && Follows(h.mem, s.blocks, 0);
  }
}
