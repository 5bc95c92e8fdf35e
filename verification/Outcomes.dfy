/** tlsf_create, and when tlsf_malloc keeps the heap intact. */
module Outcomes {
  import opened Mapping
  import opened Heap
  import opened FreeLists
  import opened Invariant
  import opened Abstraction
  import opened MallocProof
  import opened FreeProof
  import opened Search

  // ---------------------------------------------------------------- tlsf_create

  const CREATED: Shape := Shape({0}, {0}, map[0 := 0], 1)

  lemma BlankSound(n: nat, g: Heap)
    requires MIN_BLOCK <= n < MAX_UNITS
    requires g == Footer(Put(Blank(n), 0, Line(n, true, false, MAGIC48, false, 0, Null, Null, NO_OWNERS, 0)), 0)
    ensures |g.mem| == n && g.mem[0] == Line(n, true, false, MAGIC48, false, 0, Null, Null, NO_OWNERS, 0)
    ensures g.used == 0 && g.log == [] && Sound(g, Shape({0}, {}, map[], 0), NOBODY)
  {
  }

  /** A fresh heap is one free block and satisfies every invariant. */
  lemma CreateWf(n: nat)
    requires MIN_BLOCK <= n < MAX_UNITS
    ensures Wf(Create(n), CREATED) && InRange(Create(n).mem, CREATED.blocks) && |Create(n).mem| == n
    ensures forall rule :: Ruled(Create(n).mem, CREATED.blocks, rule)
    ensures Live(Create(n).mem, CREATED.blocks) == map[]
    ensures Create(n).mem[0].size == n && Create(n).mem[0].free
  {
    hide InsertFree, Class, Sound, OnlyLinks, Footer;
    var g := Footer(Put(Blank(n), 0, Line(n, true, false, MAGIC48, false, 0, Null, Null, NO_OWNERS, 0)), 0);
    BlankSound(n, g);
    InsertSound(g, Shape({0}, {}, map[], 0), NOBODY, 0);
    var none: set<nat> := {};
    assert none + {0} == {0};
    InsertedLine(g.mem, Create(n).mem, {0}, 0);
    assert Inserted(Shape({0}, {}, map[], 0), 0) == CREATED;
    SoundRange(Create(n), CREATED, NOBODY);
  }

  // ---------------------------------------------------------------- undersized blocks

  /** Two tilings that agree on the sizes before b agree on the headers up to b. */
  lemma {:induction false} SamePrefix(a: seq<Line>, c: seq<Line>, was: set<nat>, now: set<nat>, p: nat, b: nat)
    requires Tiled(a, was) && Tiled(c, now) && |a| == |c|
    requires forall u :: u in was && u < b ==> c[u].size == a[u].size
    requires p in was && p in now && b in was && p <= b
    ensures b in now
    decreases b - p
  {
    if p < b {
      assert Follows(a, was, p) && Follows(c, now, p);
      SamePrefix(a, c, was, now, p + a[p].size, b);
    }
  }

  /**
   * With a block smaller than the request the size difference wraps around: the "rest" gets a size
   * of almost 2^58 units and the block itself runs over its right neighbour.
   */
  lemma UndersizedWrites(h: Heap, s: Shape, b: nat, total: nat)
    requires Sound(h, s, NOBODY) && b in s.free && b < |h.mem|
    requires h.mem[b].size < total < UNIT_RANGE / 4
    ensures var c := Carved(h, b, total); var rest := b + total;
            && |c.mem| == |h.mem| && c.log == h.log
            && c.mem[b].size == total
            && (forall u :: 0 <= u < b ==> c.mem[u].size == h.mem[u].size)
            && (rest < |h.mem| ==> c.mem[rest].size > UNIT_RANGE / 2)
            && (rest == |h.mem| ==> exists k :: 0 <= k < CLASSES && c.matrix[k] == At(rest))
  {
    hide Sound, RemoveFree, ClearBits, SetBits, Class, OnlyLinks;
    FreeIsBlock(h, s, NOBODY, b);
    SoundFacts(h, s, NOBODY, b);
    RemoveSound(h, s, NOBODY, b);
    var h1 := RemoveFree(h, b, Class(h.mem[b].size));
    LinksFacts(h.mem, h1.mem, s.free - {b}, b);
    SizesKept(h.mem, h1.mem, s.free - {b});
    UndersizedCarve(h1, b, total);
    var c := Carve(h1, b, total);
    UndersizedInsert(c, b + total, Class(Get(c, b + total).size));
  }

  lemma SizesKept(a: seq<Line>, c: seq<Line>, f: set<nat>)
    requires OnlyLinks(a, c, f)
    ensures |c| == |a| && forall u :: 0 <= u < |a| ==> c[u].size == a[u].size
  {
  }

  lemma UndersizedCarve(h: Heap, b: nat, total: nat)
    requires b < |h.mem| < MAX_UNITS && b + h.mem[b].size <= |h.mem| && MIN_BLOCK <= h.mem[b].size
    requires h.mem[b].size < total < UNIT_RANGE / 4
    ensures var c := Carve(h, b, total); var rest := b + total;
            && AddUnits(b, total) == rest && SubUnits(h.mem[b].size, total) > UNIT_RANGE / 2
            && |c.mem| == |h.mem| && c.log == h.log && c.mem[b].size == total
            && (forall u :: 0 <= u < b ==> c.mem[u].size == h.mem[u].size)
            && (rest < |h.mem| ==> c.mem[rest].size == SubUnits(h.mem[b].size, total))
  {
  }

  lemma UndersizedInsert(h: Heap, rest: nat, k: nat)
    requires k < CLASSES
    ensures var r := InsertFree(h, rest, k);
            && |r.mem| == |h.mem| && r.log == h.log && r.matrix[k] == At(rest)
            && forall u :: 0 <= u < |h.mem| ==> r.mem[u].size == h.mem[u].size
  {
  }

  lemma ClaimKeepsSizes(h: Heap, b: nat, split: bool, uid: nat, dtype: nat)
    requires h.log == []
    ensures var r := Claim(h, b, split, uid, dtype);
            && r.Go? && |r.h.mem| == |h.mem| && r.h.matrix == h.matrix
            && forall u :: 0 <= u < |h.mem| ==> r.h.mem[u].size == h.mem[u].size
  {
    hide Recover, Read;
  }

  /** Taking a block that is too small destroys the heap: no shape fits the result. */
  lemma UndersizedBreaks(h: Heap, s: Shape, b: nat, total: nat, uid: nat, dtype: nat, t: Shape)
    requires Wf(h, s) && b in s.free && b < |h.mem| && h.mem[b].size < total < UNIT_RANGE / 4
    ensures Claimed(h, b, total, uid, dtype).Go?
    ensures !Core(Claimed(h, b, total, uid, dtype).h, t)
  {
    hide Carved, Claim, Lists, Bits, Clients, Total, PrevSizes;
    CoreSound(h, s);
    FreeIsBlock(h, s, NOBODY, b);
    UndersizedWrites(h, s, b, total);
    var c := Carved(h, b, total);
    ClaimKeepsSizes(c, b, SubUnits(h.mem[b].size, total) >= MIN_BLOCK, uid, dtype);
    var r := Claimed(h, b, total, uid, dtype).h;
    if Core(r, t) {
      SamePrefix(h.mem, r.mem, s.blocks, t.blocks, 0, b);
      assert Follows(r.mem, t.blocks, b);
      if b + total == |h.mem| {
        var k :| 0 <= k < CLASSES && c.matrix[k] == At(b + total);
        HeadIsFree(r, t, NOBODY, k);
      }
      assert false;
    }
  }

  // ---------------------------------------------------------------- when malloc is safe

  /** What a caller can check before tlsf_malloc: the block it will take is large enough. */
  predicate Fits(h: Heap, size: nat) {
    FindFor(h, BlockUnits(size)).At? ==> BlockUnits(size) <= Get(h, FindFor(h, BlockUnits(size)).u).size
  }

  /** The three outcomes of tlsf_malloc_internal. */
  lemma MallocPaths(h: Heap, s: Shape, size: nat, uid: nat, dtype: nat)
    requires Core(h, s) && size > 0
    ensures var total := BlockUnits(size); var a := MallocInternal(h, size, uid, dtype);
            && (FindFor(h, total).Null? ==> a == Alloc(h, Null, OutOfMemory))
            && (FindFor(h, total).At? ==>
                  var b := FindFor(h, total).u;
                  && b < |h.mem|
                  && (Claimed(h, b, total, uid, dtype).Go? ==>
                        a == Alloc(Claimed(h, b, total, uid, dtype).h, At(b + 1), Ok)))
  {
    hide Core, FindFor, Claim, Carved, BlockUnits;
    if FindFor(h, BlockUnits(size)).At? { FoundIsFree(h, s, BlockUnits(size)); }
  }

  /** tlsf_malloc keeps the heap well-formed exactly when the block found is large enough. */
  lemma MallocSafeExactly(h: Heap, s: Shape, size: nat, uid: nat, dtype: nat)
    requires Wf(h, s) && size > 0 && uid != 0
    ensures (exists t :: Core(MallocInternal(h, size, uid, dtype).h, t)) <==> Fits(h, size)
  {
    hide Sound, Clients, Live, FindFor, Claimed, BlockUnits, AfterMalloc, MallocInternal, Total, PayloadKept, RulesKept;
    CoreSound(h, s);
    var total := BlockUnits(size);
    UnitsPositive(size);
    MallocPaths(h, s, size, uid, dtype);
    var r := MallocInternal(h, size, uid, dtype).h;
    if FindFor(h, total).Null? {
      assert Core(r, s);
    } else {
      FoundIsFree(h, s, total);
      var b := FindFor(h, total).u;
      if total <= h.mem[b].size {
        MallocWf(h, s, b, total, uid, dtype);
        assert Core(r, AfterMalloc(s, b, h.mem[b].size, total));
      } else {
        if 64 * total >= SPAN / 2 { HugeFindsNothing(h, s, total); }
        forall t ensures !Core(r, t) {
          UndersizedBreaks(h, s, b, total, uid, dtype, t);
        }
      }
    }
  }

  lemma UnitsPositive(size: nat)
    ensures BlockUnits(size) >= MIN_BLOCK
  {
  }

  lemma FoundIsFree(h: Heap, s: Shape, total: nat)
    requires Core(h, s) && FindFor(h, total).At?
    ensures FindFor(h, total).u in s.free && FindFor(h, total).u < |h.mem|
    ensures h.mem[FindFor(h, total).u].sig == MAGIC48 && FindFor(h, total).u in s.blocks
  {
    hide FindFor, Sound, Clients;
    FindIsFree(h, s, NOBODY, total);
    FreeIsBlock(h, s, NOBODY, FindFor(h, total).u);
    SoundFacts(h, s, NOBODY, FindFor(h, total).u);
  }

  /** A request at the lower bound of its size class, or beyond any heap, is safe on every heap. */
  lemma AlignedFits(h: Heap, s: Shape, size: nat)
    requires Wf(h, s) && (ClassAligned(BlockUnits(size)) || BlockUnits(size) > MAX_UNITS)
    ensures Fits(h, size)
  {
    hide Wf, Core, FindFor, BlockUnits, ClassAligned, Class;
    UnitsPositive(size);
    WfCore(h, s);
    if BlockUnits(size) > MAX_UNITS {
      HugeFindsNothing(h, s, BlockUnits(size));
    } else {
      SearchSpec(h, s, BlockUnits(size));
    }
  }

  lemma WfCore(h: Heap, s: Shape)
    requires Wf(h, s)
    ensures Core(h, s)
  {
  }

  /** The payload of the computed block covers the request, except where size_t wraps around. */
  lemma UnitsCoverRequest(size: nat)
    requires size < SIZE_RANGE
    ensures 64 * (BlockUnits(size) - 1) >= size <==> size <= SIZE_RANGE - 128
  {
  }
}
