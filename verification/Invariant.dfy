/** What every reachable allocator state satisfies. */
module Invariant {
  import opened Mapping
  import opened Heap
  import opened FreeLists

  /** Ghost view of a heap: the block headers, those on free lists, and list stamps. */
  datatype Shape = Shape(blocks: set<nat>, free: set<nat>, stamp: map<nat, nat>, clock: nat)

  /** 2^34 units is the largest pool, 2^40 bytes. */
  const MAX_UNITS: nat := 0x4_0000_0000

  /** The block behind b starts right where b ends. */
  ghost predicate Follows(mem: seq<Line>, blocks: set<nat>, b: nat)
    requires b < |mem|
  {
    b + mem[b].size == |mem| || b + mem[b].size in blocks
  }

  ghost predicate Headers(mem: seq<Line>, blocks: set<nat>) {
    forall b :: b in blocks ==>
      b < |mem| && mem[b].size >= MIN_BLOCK && mem[b].sig == MAGIC48 && b + mem[b].size <= |mem|
  }

  ghost predicate Chained(mem: seq<Line>, blocks: set<nat>) {
    forall b {:trigger Follows(mem, blocks, b)} :: b in blocks ==> b < |mem| && Follows(mem, blocks, b)
  }

  ghost predicate Apart(mem: seq<Line>, blocks: set<nat>) {
    && (forall b :: b in blocks ==> b < |mem|)
    && (forall b, c :: b in blocks && c in blocks && b < c ==> b + mem[b].size <= c)
  }

  /** The blocks tile the heap exactly. */
  ghost predicate Tiled(mem: seq<Line>, blocks: set<nat>)
  {
    && MIN_BLOCK <= |mem| < MAX_UNITS
    && 0 in blocks
    && Headers(mem, blocks)
    && Chained(mem, blocks)
    && Apart(mem, blocks)
  }

  /** Where PREV_FREE is set, prev_size is the size of the left neighbour. */
  ghost predicate PrevRight(mem: seq<Line>, blocks: set<nat>, b: nat)
    requires b < |mem|
  {
    mem[b].prevFree ==>
      && 0 < mem[b].prevSize <= b
      && b - mem[b].prevSize in blocks
      && mem[b - mem[b].prevSize].size == mem[b].prevSize
  }

  ghost predicate PrevSizes(mem: seq<Line>, blocks: set<nat>, but: nat)
  {
    forall b {:trigger PrevRight(mem, blocks, b)} ::
      b in blocks && b != but ==> b < |mem| && PrevRight(mem, blocks, b)
  }

  /** No block has this address: "prev_size is right everywhere". */
  const NOBODY: nat := MAX_UNITS

  /** What also holds between the steps of one operation, except for prev_size of block `but`. */
  ghost predicate Sound(h: Heap, s: Shape, but: nat)
  {
    && Tiled(h.mem, s.blocks)
    && PrevSizes(h.mem, s.blocks, but)
    && s.free <= s.blocks
    && Lists(h.mem, h.matrix, s.free, s.stamp)
    && Bits(h.matrix, h.sl, h.fl)
    && (forall b :: b in s.free ==> s.stamp[b] < s.clock)
  }

  // ---------------------------------------------------------------- abstraction

  /** What a client knows of a live block. */
  datatype Entry = Entry(size: nat, owners: set<nat>, dtype: nat, dc: bool)

  function OwnerSet(s: Owners): set<nat> {
    set i | 0 <= i < OWNERS && s[i] != 0 :: s[i]
  }

  function EntryOf(l: Line): Entry {
    Entry(l.size, OwnerSet(l.uid), l.dtype, l.dc)
  }

  ghost predicate InRange(mem: seq<Line>, blocks: set<nat>) {
    forall b :: b in blocks ==> b < |mem|
  }

  /** The allocator as a map from header to what the client may observe. */
  ghost function Live(mem: seq<Line>, blocks: set<nat>): map<nat, Entry>
    requires InRange(mem, blocks)
  {
    map b | b in blocks && !mem[b].free :: EntryOf(mem[b])
  }

  /** Payload bytes of all live blocks. */
  ghost function Total(m: map<nat, Entry>): int
    decreases |m|
  {
    if m == map[] then 0 else
      var b :| b in m;
      64 * (m[b].size - 1) + Total(m - {b})
  }

  /** Owners are distinct and every live block has one. */
  ghost predicate Owned(l: Line) {
    && (forall i, j :: 0 <= i < j < OWNERS && l.uid[i] != 0 ==> l.uid[i] != l.uid[j])
    && OwnerSet(l.uid) != {}
  }

  /** The FREE flag is set exactly on listed blocks, and allocated blocks are owned. */
  ghost predicate ClientOk(mem: seq<Line>, free: set<nat>, b: nat)
    requires b < |mem|
  {
    && (b in free <==> mem[b].free)
    && (!mem[b].free ==> Owned(mem[b]))
  }

  ghost predicate Clients(mem: seq<Line>, s: Shape) {
    forall b {:trigger ClientOk(mem, s.free, b)} :: b in s.blocks ==> b < |mem| && ClientOk(mem, s.free, b)
  }

  /** The invariant, except that a transaction may still be open. */
  ghost predicate Core(h: Heap, s: Shape)
  {
    && Sound(h, s, NOBODY)
    && Clients(h.mem, s)
    && h.used == Total(Live(h.mem, s.blocks))
  }

  /** The invariant whenever the lock is free. */
  ghost predicate Wf(h: Heap, s: Shape)
  {
    Core(h, s) && h.log == []
  }

  /** The two rules of a coalesced heap, which single steps may break. */
  datatype Rule = Separated | Announced

  /** Behind a free block lies no free block; behind a free block PREV_FREE is set. */
  ghost predicate Obeys(mem: seq<Line>, b: nat, rule: Rule)
    requires b < |mem|
  {
    var n := b + mem[b].size;
    mem[b].free && n < |mem| ==>
      match rule
      case Separated => !mem[n].free
      case Announced => mem[n].prevFree
  }

  ghost predicate Ruled(mem: seq<Line>, blocks: set<nat>, rule: Rule)
  {
    forall b {:trigger Obeys(mem, b, rule)} :: b in blocks ==> b < |mem| && Obeys(mem, b, rule)
  }

  /** Of the rules that held, exactly the `broken` ones are lost. */
  ghost predicate RulesBroken(a: seq<Line>, c: seq<Line>, was: set<nat>, now: set<nat>, broken: set<Rule>) {
    forall rule {:trigger Ruled(c, now, rule)} {:trigger Ruled(a, was, rule)} ::
      Ruled(a, was, rule) ==> (Ruled(c, now, rule) <==> rule !in broken)
  }

  ghost predicate RulesKept(a: seq<Line>, c: seq<Line>, was: set<nat>, now: set<nat>) {
    RulesBroken(a, c, was, now, {})
  }

  // ---------------------------------------------------------------- list steps on Sound

  /** Two memories with the same block sizes and signatures. */
  ghost predicate SameTiles(a: seq<Line>, b: seq<Line>, blocks: set<nat>) {
    && |a| == |b|
    && forall u :: u in blocks ==> u < |a| && a[u].size == b[u].size && a[u].sig == b[u].sig
  }

  lemma TilesKeep(a: seq<Line>, b: seq<Line>, blocks: set<nat>)
    requires Tiled(a, blocks) && SameTiles(a, b, blocks)
    ensures Tiled(b, blocks)
  {
    forall c | c in blocks ensures Follows(b, blocks, c) {
      assert Follows(a, blocks, c);
    }
  }

  lemma LinksKeepTiling(a: seq<Line>, b: seq<Line>, f: set<nat>, blocks: set<nat>, but: nat)
    requires OnlyLinks(a, b, f) && Tiled(a, blocks) && PrevSizes(a, blocks, but)
    ensures Tiled(b, blocks) && PrevSizes(b, blocks, but)
  {
    TilesKeep(a, b, blocks);
    forall c | c in blocks && c != but ensures PrevRight(b, blocks, c) {
      assert PrevRight(a, blocks, c);
      assert b[c] == a[c].(prev := b[c].prev, next := b[c].next);
    }
  }

  lemma RemoveSound(h: Heap, s: Shape, but: nat, b: nat)
    requires Sound(h, s, but) && b in s.free
    ensures var r := RemoveFree(h, b, Class(h.mem[b].size));
            && Sound(r, s.(free := s.free - {b}), but)
            && OnlyLinks(h.mem, r.mem, s.free - {b})
            && r.used == h.used && r.log == h.log
  {
    assert b < |h.mem|;
    hide RemoveFree, Class, Lists, Bits, Tiled, PrevSizes, OnlyLinks;
    RemoveKeepsLists(h, s.free, s.stamp, b);
    LinksKeepTiling(h.mem, RemoveFree(h, b, Class(h.mem[b].size)).mem, s.free - {b}, s.blocks, but);
  }

  /** What callers of the lemmas below need to know of a sound heap. */
  lemma SoundFacts(h: Heap, s: Shape, but: nat, b: nat)
    requires Sound(h, s, but) && b in s.blocks
    ensures s.free <= s.blocks && Tiled(h.mem, s.blocks)
    ensures 2 <= |h.mem| < MAX_UNITS && b < |h.mem| && b + h.mem[b].size <= |h.mem|
    ensures h.mem[b].size >= MIN_BLOCK && h.mem[b].sig == MAGIC48
  {
  }

  lemma SoundBut(h: Heap, s: Shape, n: nat)
    requires Sound(h, s, NOBODY)
    ensures Sound(h, s, n)
  {
    hide Lists, Bits;
  }

  lemma FreeIsBlock(h: Heap, s: Shape, but: nat, b: nat)
    requires Sound(h, s, but) && b in s.free
    ensures b in s.blocks
  {
  }

  /** The units of a block hold no other header. */
  lemma AloneInside(h: Heap, s: Shape, but: nat, b: nat)
    requires Sound(h, s, but) && b in s.blocks
    ensures b < |h.mem| && InRange(h.mem, s.blocks)
    ensures forall c :: c in s.blocks && b <= c < b + h.mem[b].size ==> c == b
  {
    hide Lists, Bits, Chained, PrevSizes;
  }

  lemma SoundRange(h: Heap, s: Shape, but: nat)
    requires Sound(h, s, but)
    ensures InRange(h.mem, s.blocks)
  {
    hide Lists, Bits, Chained, PrevSizes;
  }

  lemma CommitSound(h: Heap, s: Shape)
    requires Sound(h, s, NOBODY)
    ensures Sound(Commit(h), s, NOBODY)
  {
    hide Lists, Bits, Tiled, PrevSizes;
  }

  ghost function Inserted(s: Shape, b: nat): Shape {
    Shape(s.blocks, s.free + {b}, s.stamp[b := s.clock], s.clock + 1)
  }

  lemma InsertSound(h: Heap, s: Shape, but: nat, b: nat)
    requires Sound(h, s, but) && b in s.blocks && b !in s.free
    ensures var r := InsertFree(h, b, Class(h.mem[b].size));
            && Sound(r, Inserted(s, b), but)
            && OnlyLinks(h.mem, r.mem, s.free + {b})
            && r.used == h.used && r.log == h.log
  {
    assert b < |h.mem|;
    hide InsertFree, Class, Lists, Bits, Tiled, PrevSizes, OnlyLinks;
    InsertKeepsLists(h, s.free, s.stamp, b, s.clock);
    LinksKeepTiling(h.mem, InsertFree(h, b, Class(h.mem[b].size)).mem, s.free + {b}, s.blocks, but);
  }

  // ---------------------------------------------------------------- header steps on Sound

  /** The lists only read the size and links of their own blocks. */
  lemma ListsKeep(a: seq<Line>, b: seq<Line>, matrix: Matrix, f: set<nat>, st: map<nat, nat>)
    requires Lists(a, matrix, f, st) && |a| == |b|
    requires forall u :: u in f ==>
      u < |a| && b[u].size == a[u].size && b[u].prev == a[u].prev && b[u].next == a[u].next
    ensures Lists(b, matrix, f, st)
  {
    hide Class;
    forall c | c in f ensures Linked(b, matrix, f, st, c) {
      assert Linked(a, matrix, f, st, c);
    }
  }

  /** Block headers keep size, signature and links, and prev_size except at `n`. */
  ghost predicate SameFrame(a: seq<Line>, b: seq<Line>, blocks: set<nat>, n: nat) {
    && |a| == |b|
    && forall u :: u in blocks ==>
        && u < |a|
        && b[u].size == a[u].size && b[u].sig == a[u].sig
        && b[u].prev == a[u].prev && b[u].next == a[u].next
        && (u != n ==> b[u].prevFree == a[u].prevFree && b[u].prevSize == a[u].prevSize)
  }

  /** Writes that leave the structure alone, and that may put prev_size of block n right. */
  lemma FrameSound(h: Heap, g: Heap, s: Shape, n: nat)
    requires Sound(h, s, n) && SameFrame(h.mem, g.mem, s.blocks, n)
    requires g.matrix == h.matrix && g.sl == h.sl && g.fl == h.fl
    requires n in s.blocks ==> PrevRight(g.mem, s.blocks, n)
    ensures Sound(g, s, NOBODY)
  {
    ListsKeep(h.mem, g.mem, h.matrix, s.free, s.stamp);
    hide Lists, Bits;
    TilesKeep(h.mem, g.mem, s.blocks);
    forall c | c in s.blocks ensures PrevRight(g.mem, s.blocks, c) {
      assert c != n ==> PrevRight(h.mem, s.blocks, c);
    }
  }

  lemma FrameKeep(h: Heap, g: Heap, s: Shape, but: nat)
    requires Sound(h, s, but) && SameFrame(h.mem, g.mem, s.blocks, NOBODY)
    requires g.matrix == h.matrix && g.sl == h.sl && g.fl == h.fl
    ensures Sound(g, s, but)
  {
    ListsKeep(h.mem, g.mem, h.matrix, s.free, s.stamp);
    hide Lists, Bits;
    TilesKeep(h.mem, g.mem, s.blocks);
    forall c | c in s.blocks && c != but ensures PrevRight(g.mem, s.blocks, c) {
      assert PrevRight(h.mem, s.blocks, c);
    }
  }

  /** What a split writes: two headers, the neighbour's prev_size, and a footer inside the rest. */
  ghost predicate CarveEffect(a: seq<Line>, c: seq<Line>, b: nat, size: nat)
    requires b < |a| && 0 < size <= a[b].size && b + a[b].size <= |a|
  {
    var rest := b + size;
    var end := b + a[b].size;
    && |c| == |a|
    && c[b] == a[b].(size := size)
    && rest < |a|
    && c[rest] == Line(a[b].size - size, true, false, MAGIC48, false, 0, Null, Null, NO_OWNERS, 0)
    && (end < |a| ==> c[end] == a[end].(prevFree := true, prevSize := a[b].size - size))
    && (forall u :: 0 <= u < |a| && u != b && u != rest && u != end && u != end - 1 ==> c[u] == a[u])
  }

  lemma CarveWrites(h: Heap, b: nat, size: nat)
    requires b < |h.mem| < MAX_UNITS && MIN_BLOCK <= size && size + MIN_BLOCK <= h.mem[b].size
    requires b + h.mem[b].size <= |h.mem|
    ensures var c := Carve(h, b, size); CarveEffect(h.mem, c.mem, b, size) && c == h.(mem := c.mem)
  {
  }

  lemma CarveTiles(a: seq<Line>, c: seq<Line>, blocks: set<nat>, b: nat, size: nat)
    requires Tiled(a, blocks) && b in blocks
    requires MIN_BLOCK <= size && size + MIN_BLOCK <= a[b].size
    requires CarveEffect(a, c, b, size)
    ensures Tiled(c, blocks + {b + size})
  {
    CarveSizes(a, c, blocks, b, size);
    CarveChain(a, c, blocks, b, size);
    var after: set<nat> := blocks + {b + size};
    assert 0 in after;
  }

  lemma CarveSizes(a: seq<Line>, c: seq<Line>, blocks: set<nat>, b: nat, size: nat)
    requires Headers(a, blocks) && Apart(a, blocks) && b in blocks
    requires MIN_BLOCK <= size && size + MIN_BLOCK <= a[b].size
    requires CarveEffect(a, c, b, size)
    ensures Headers(c, blocks + {b + size}) && Apart(c, blocks + {b + size})
  {
    forall u | u in blocks && u != b ensures c[u].size == a[u].size && c[u].sig == a[u].sig {
      assert u < b ==> u + a[u].size <= b;
    }
  }

  lemma CarveChain(a: seq<Line>, c: seq<Line>, blocks: set<nat>, b: nat, size: nat)
    requires Headers(a, blocks) && Apart(a, blocks) && Chained(a, blocks) && b in blocks
    requires MIN_BLOCK <= size && size + MIN_BLOCK <= a[b].size
    requires CarveEffect(a, c, b, size)
    ensures Chained(c, blocks + {b + size})
  {
    var rest: nat := b + size;
    var after := blocks + {rest};
    assert Follows(a, blocks, b);
    CarveKeepsSizes(a, c, blocks, b, size);
    hide CarveEffect, Headers, Apart;
    forall u | u in after ensures u < |c| && Follows(c, after, u) {
      if u == b {
        assert rest in after;
      } else if u == rest {
        assert rest + c[rest].size == b + a[b].size;
      } else {
        assert Follows(a, blocks, u);
      }
    }
  }

  lemma CarveKeepsSizes(a: seq<Line>, c: seq<Line>, blocks: set<nat>, b: nat, size: nat)
    requires Headers(a, blocks) && Apart(a, blocks) && b in blocks
    requires MIN_BLOCK <= size && size + MIN_BLOCK <= a[b].size
    requires CarveEffect(a, c, b, size)
    ensures |c| == |a| && b + size < |c| && c[b].size == size && c[b + size].size == a[b].size - size
    ensures forall u :: u in blocks && u != b ==> u < |a| && c[u].size == a[u].size
  {
    forall u | u in blocks && u != b ensures c[u].size == a[u].size {
      assert u < b ==> u + a[u].size <= b;
    }
  }

  lemma CarvePrev(a: seq<Line>, c: seq<Line>, blocks: set<nat>, b: nat, size: nat)
    requires Tiled(a, blocks) && b in blocks && PrevSizes(a, blocks, b + a[b].size)
    requires MIN_BLOCK <= size && size + MIN_BLOCK <= a[b].size
    requires CarveEffect(a, c, b, size)
    ensures PrevSizes(c, blocks + {b + size}, NOBODY)
  {
    var after := blocks + {b + size};
    forall u | u in after ensures PrevRight(c, after, u) {
      if u in blocks && u != b + a[b].size { assert PrevRight(a, blocks, u); }
    }
  }

  lemma CarveSound(h: Heap, s: Shape, b: nat, size: nat)
    requires b < |h.mem| && Sound(h, s, b + h.mem[b].size) && b in s.blocks && b !in s.free
    requires MIN_BLOCK <= size && size + MIN_BLOCK <= h.mem[b].size
    ensures var c := Carve(h, b, size);
            && CarveEffect(h.mem, c.mem, b, size) && c == h.(mem := c.mem)
            && b + size < |c.mem| && b + size !in s.blocks
            && c.mem[b + size].size + size == h.mem[b].size
            && Sound(c, s.(blocks := s.blocks + {b + size}), NOBODY)
  {
    hide Lists, Bits, Carve;
    CarveWrites(h, b, size);
    var c := Carve(h, b, size);
    ListsKeep(h.mem, c.mem, h.matrix, s.free, s.stamp);
    CarveTiles(h.mem, c.mem, s.blocks, b, size);
    CarvePrev(h.mem, c.mem, s.blocks, b, size);
  }

  // ---------------------------------------------------------------- merging two neighbours

  /** Block x takes over the block y right behind it. */
  ghost predicate MergeEffect(a: seq<Line>, c: seq<Line>, blocks: set<nat>, x: nat, y: nat) {
    && |c| == |a| && x < |a| && y < |a|
    && y == x + a[x].size
    && c[x].size == a[x].size + a[y].size && c[x].sig == a[x].sig
    && (forall u :: u in blocks && u != x && u != y ==>
          u < |a| && c[u].size == a[u].size && c[u].sig == a[u].sig)
  }

  lemma MergeTiles(a: seq<Line>, c: seq<Line>, blocks: set<nat>, x: nat, y: nat)
    requires Tiled(a, blocks) && x in blocks && y in blocks && MergeEffect(a, c, blocks, x, y)
    ensures Tiled(c, blocks - {y})
  {
    MergeSizes(a, c, blocks, x, y);
    MergeChain(a, c, blocks, x, y);
    assert x < y;
  }

  lemma MergeSizes(a: seq<Line>, c: seq<Line>, blocks: set<nat>, x: nat, y: nat)
    requires Headers(a, blocks) && Apart(a, blocks)
    requires x in blocks && y in blocks && MergeEffect(a, c, blocks, x, y)
    ensures Headers(c, blocks - {y}) && Apart(c, blocks - {y})
  {
  }

  lemma MergeChain(a: seq<Line>, c: seq<Line>, blocks: set<nat>, x: nat, y: nat)
    requires Headers(a, blocks) && Chained(a, blocks) && Apart(a, blocks)
    requires x in blocks && y in blocks && MergeEffect(a, c, blocks, x, y)
    ensures Chained(c, blocks - {y})
  {
    var after := blocks - {y};
    forall u | u in after ensures u < |c| && Follows(c, after, u) {
      assert Follows(a, blocks, if u == x then y else u);
    }
  }

  /** After a merge only the block behind may have a stale prev_size. */
  lemma MergePrev(a: seq<Line>, c: seq<Line>, blocks: set<nat>, x: nat, y: nat)
    requires Tiled(a, blocks) && x in blocks && y in blocks && MergeEffect(a, c, blocks, x, y)
    requires PrevSizes(a, blocks, y)
    requires forall u :: u in blocks - {y} ==>
      (c[u].prevFree ==> a[u].prevFree && c[u].prevSize == a[u].prevSize)
    ensures PrevSizes(c, blocks - {y}, y + a[y].size)
  {
    var after := blocks - {y};
    forall u | u in after && u != y + a[y].size ensures PrevRight(c, after, u) {
      assert PrevRight(a, blocks, u);
      if c[u].prevFree {
        var left := u - a[u].prevSize;
        assert left != y;
        assert left == x ==> u == y;
      }
    }
  }

  // ---------------------------------------------------------------- where an operation writes

  /**
   * Outside the units [lo, hi) an operation changes only list links of block headers and, in the
   * header at hi, the two fields that describe the left neighbour.
   */
  ghost predicate Local(a: seq<Line>, c: seq<Line>, heads: set<nat>, lo: nat, hi: nat) {
    && |a| == |c|
    && forall u :: 0 <= u < |a| && !(lo <= u < hi) ==>
        && (u !in heads ==> c[u] == a[u])
        && c[u] == a[u].(prev := c[u].prev, next := c[u].next,
             prevFree := if u == hi then c[u].prevFree else a[u].prevFree,
             prevSize := if u == hi then c[u].prevSize else a[u].prevSize)
  }

  lemma LocalTrans(a: seq<Line>, b: seq<Line>, c: seq<Line>, heads: set<nat>, lo: nat, hi: nat)
    requires Local(a, b, heads, lo, hi) && Local(b, c, heads, lo, hi)
    ensures Local(a, c, heads, lo, hi)
  {
  }

  lemma LinksLocal(a: seq<Line>, c: seq<Line>, f: set<nat>, heads: set<nat>, lo: nat, hi: nat)
    requires OnlyLinks(a, c, f) && forall u :: u in f ==> u in heads || lo <= u < hi
    ensures Local(a, c, heads, lo, hi)
  {
  }

  lemma InsideLocal(a: seq<Line>, c: seq<Line>, heads: set<nat>, lo: nat, hi: nat, u: nat)
    requires lo <= u < hi && u < |a| == |c| && c == a[u := c[u]]
    ensures Local(a, c, heads, lo, hi)
  {
  }

  lemma WidenLocal(a: seq<Line>, c: seq<Line>, heads: set<nat>, lo: nat, hi: nat, lo': nat, hi': nat)
    requires Local(a, c, heads, lo, hi) && lo' <= lo <= hi <= hi'
    ensures Local(a, c, heads, lo', hi')
  {
  }

  lemma LocalSize(a: seq<Line>, c: seq<Line>, heads: set<nat>, lo: nat, hi: nat)
    requires Local(a, c, heads, lo, hi)
    ensures |a| == |c|
  {
  }
}
