/** What tlsf_free_internal does to a well-formed heap. */
module FreeProof {
  import opened Mapping
  import opened Heap
  import opened FreeLists
  import opened Invariant
  import opened Abstraction
  import opened OwnerSlots

  ghost function Without(s: Shape, y: nat): Shape { s.(blocks := s.blocks - {y}) }

  ghost function Taken(s: Shape, x: nat): Shape { s.(free := s.free - {x}) }

  /** x absorbs its right neighbour y; only the block behind y may then have a stale prev_size. */
  lemma MergeSound(h: Heap, g: Heap, s: Shape, x: nat, y: nat)
    requires Sound(h, s, y) && x in s.blocks && y in s.blocks && x !in s.free && y !in s.free
    requires MergeEffect(h.mem, g.mem, s.blocks, x, y)
    requires forall u :: 0 <= u < |h.mem| && u != x ==> g.mem[u] == h.mem[u]
    requires g.mem[x].prevFree ==> h.mem[x].prevFree && g.mem[x].prevSize == h.mem[x].prevSize
    requires g.matrix == h.matrix && g.sl == h.sl && g.fl == h.fl
    ensures Sound(g, Without(s, y), y + h.mem[y].size)
  {
    hide Bits, Lists, Headers, Chained, Apart;
    MergeTiles(h.mem, g.mem, s.blocks, x, y);
    MergePrev(h.mem, g.mem, s.blocks, x, y);
    ListsKeep(h.mem, g.mem, h.matrix, s.free, s.stamp);
  }

  // ---------------------------------------------------------------- backwards

  /** Merging into the free block p right before b. */
  lemma BackSound(h: Heap, s: Shape, b: nat, p: nat)
    requires Sound(h, s, NOBODY) && b in s.blocks && b !in s.free && p in s.free
    requires b < |h.mem| && p < |h.mem| && MergesBack(h, b) && p == b - h.mem[b].prevSize
    requires h.mem[p].size == b - p
    ensures var m := CoalescePrev(h, b); var hi := b + h.mem[b].size;
            && m.b == p
            && Sound(m.h, Without(Taken(s, p), b), hi)
            && p < |m.h.mem| && m.h.mem[p] == h.mem[p].(size := hi - p)
            && Local(h.mem, m.h.mem, s.blocks, p, hi)
            && (hi < |h.mem| && hi !in s.free && hi < |m.h.mem| ==> m.h.mem[hi] == h.mem[hi])
            && (hi < |h.mem| && hi < |m.h.mem| ==>
                  m.h.mem[hi].free == h.mem[hi].free && m.h.mem[hi].size == h.mem[hi].size)
            && m.h.used == h.used && m.h.log == h.log
  {
    hide RemoveFree, Class, Sound, Tiled, Local, OnlyLinks, MergesBack;
    SoundFacts(h, s, NOBODY, b);
    FreeIsBlock(h, s, NOBODY, p);
    var h1 := RemoveFree(h, p, Class(h.mem[p].size));
    var s1 := Taken(s, p);
    RemoveSound(h, s, NOBODY, p);
    BackLines(h.mem, h1.mem, s, p, b);
    var g := Put(h1, p, Get(h1, p).(size := AddUnits(Get(h1, p).size, Get(h1, b).size)));
    assert CoalescePrev(h, b) == Merged(g, p);
    SoundBut(h1, s1, b);
    BackMergeEffect(h1, g, s1, p, b);
    MergeSound(h1, g, s1, p, b);
    LinksLocal(h.mem, h1.mem, s.free - {p}, s.blocks, p, b + h.mem[b].size);
    InsideLocal(h1.mem, g.mem, s.blocks, p, b + h.mem[b].size, p);
    LocalTrans(h.mem, h1.mem, g.mem, s.blocks, p, b + h.mem[b].size);
  }

  lemma BackLines(a: seq<Line>, c: seq<Line>, s: Shape, p: nat, b: nat)
    requires OnlyLinks(a, c, s.free - {p}) && p < |a| && b < |a| && b !in s.free
    ensures |c| == |a| && c[p] == a[p] && c[b] == a[b]
    ensures forall u :: 0 <= u < |a| ==> c[u].free == a[u].free && c[u].size == a[u].size
    ensures forall u :: 0 <= u < |a| && u !in s.free ==> c[u] == a[u]
  {
  }

  lemma BackMergeEffect(h1: Heap, g: Heap, s: Shape, p: nat, b: nat)
    requires Sound(h1, s, b) && p in s.blocks && b in s.blocks
    requires p < |h1.mem| && b < |h1.mem| && b == p + h1.mem[p].size
    requires g == Put(h1, p, Get(h1, p).(size := AddUnits(Get(h1, p).size, Get(h1, b).size)))
    ensures MergeEffect(h1.mem, g.mem, s.blocks, p, b)
  {
    hide Bits, Lists, Chained, Apart;
  }

  // ---------------------------------------------------------------- forwards

  lemma SwallowWrites(h: Heap, b: nat, more: nat)
    requires b < |h.mem| < MAX_UNITS && 0 < h.mem[b].size && b + h.mem[b].size + more <= |h.mem|
    ensures var r := Swallow(h, b, more); var hi := b + h.mem[b].size + more;
            && r == h.(mem := r.mem) && |r.mem| == |h.mem|
            && r.mem[b] == h.mem[b].(size := h.mem[b].size + more, prevFree := false)
            && (hi < |h.mem| ==> r.mem[hi] == h.mem[hi].(prevFree := true, prevSize := h.mem[b].size + more))
            && (forall u :: 0 <= u < |h.mem| && u != b && u != hi ==> r.mem[u] == h.mem[u])
  {
  }

  lemma SwallowSound(h: Heap, s: Shape, b: nat, y: nat)
    requires Sound(h, s, y) && b in s.blocks && y in s.blocks && b !in s.free && y !in s.free
    requires b < |h.mem| && y < |h.mem| && y == b + h.mem[b].size
    ensures Sound(Swallow(h, b, h.mem[y].size), Without(s, y), NOBODY)
  {
    hide Bits, Lists, Chained, Apart, Swallow;
    var more := h.mem[y].size;
    SwallowWrites(h, b, more);
    var r := Swallow(h, b, more);
    var g := h.(mem := h.mem[b := h.mem[b].(size := h.mem[b].size + more, prevFree := false)]);
    MergeSound(h, g, s, b, y);
    FrameSound(g, r, Without(s, y), y + more);
  }

  lemma ForwardSound(h: Heap, s: Shape, b: nat, y: nat)
    requires Sound(h, s, y) && b in s.blocks && b !in s.free && y in s.free
    requires b < |h.mem| && y < |h.mem| && y == b + h.mem[b].size
    ensures var r := CoalesceNext(h, b); var hi := y + h.mem[y].size;
            && Sound(r, Without(Taken(s, y), y), NOBODY)
            && b < |r.mem| && r.mem[b] == h.mem[b].(size := hi - b, prevFree := false)
            && Local(h.mem, r.mem, s.blocks, b, hi)
            && r.used == h.used && r.log == h.log
  {
    hide RemoveFree, Swallow, Class, Sound, Tiled, Local, OnlyLinks;
    SoundFacts(h, s, y, b);
    FreeIsBlock(h, s, y, y);
    SoundFacts(h, s, y, y);
    var h1 := RemoveFree(h, y, Class(h.mem[y].size));
    RemoveSound(h, s, y, y);
    BackLines(h.mem, h1.mem, s, y, b);
    SwallowSound(h1, Taken(s, y), b, y);
    SwallowWrites(h1, b, h.mem[y].size);
    var r := Swallow(h1, b, h.mem[y].size);
    LinksLocal(h.mem, h1.mem, s.free - {y}, s.blocks, b, y + h.mem[y].size);
    EdgeIsBlock(h, s, y, y);
    SwallowLocal(h1.mem, r.mem, s.blocks, b, y + h.mem[y].size);
    LocalTrans(h.mem, h1.mem, r.mem, s.blocks, b, y + h.mem[y].size);
  }

  /** The end of a block is a header or the end of the heap. */
  lemma EdgeIsBlock(h: Heap, s: Shape, but: nat, b: nat)
    requires Sound(h, s, but) && b in s.blocks && b < |h.mem|
    ensures b + h.mem[b].size == |h.mem| || b + h.mem[b].size in s.blocks
  {
    hide Bits, Lists, PrevSizes;
    assert Follows(h.mem, s.blocks, b);
  }

  lemma SwallowLocal(a: seq<Line>, c: seq<Line>, heads: set<nat>, b: nat, hi: nat)
    requires |a| == |c| && b < hi && (hi == |a| || hi in heads)
    requires forall u :: 0 <= u < |a| && u != b && u != hi ==> c[u] == a[u]
    requires hi < |a| ==> c[hi] == a[hi].(prevFree := c[hi].prevFree, prevSize := c[hi].prevSize)
    ensures Local(a, c, heads, b, hi)
  {
  }

  // ---------------------------------------------------------------- both merges and the insertion

  lemma MarkFreeSound(h: Heap, s: Shape, but: nat, b: nat)
    requires Sound(h, s, but) && b in s.blocks && b < |h.mem|
    ensures var g := MarkFree(h, b); var hi := b + h.mem[b].size;
            && Sound(g, s, but) && g == h.(mem := g.mem) && |g.mem| == |h.mem|
            && g.mem[b] == h.mem[b].(free := true)
            && (forall u :: 0 <= u < |h.mem| && u != b && u != hi - 1 ==> g.mem[u] == h.mem[u])
  {
    hide Lists, Bits, Chained, PrevSizes;
    FrameKeep(h, MarkFree(h, b), s, but);
  }

  /** The FREE flag agrees with list membership. */
  ghost predicate FlagsAgree(mem: seq<Line>, s: Shape) {
    forall c :: c in s.blocks ==> c < |mem| && (c in s.free <==> mem[c].free)
  }

  ghost function Lo(h: Heap, b: nat): nat
    requires b < |h.mem|
  {
    if MergesBack(h, b) then b - h.mem[b].prevSize else b
  }

  ghost function Hi(h: Heap, b: nat): nat
    requires b < |h.mem|
  {
    var e := b + h.mem[b].size;
    if e < |h.mem| && h.mem[e].free then e + h.mem[e].size else e
  }

  ghost function AfterBack(h: Heap, s: Shape, b: nat): Shape
    requires b < |h.mem|
  {
    if MergesBack(h, b) then Without(Taken(s, Lo(h, b)), b) else s
  }

  ghost function AfterForward(h: Heap, s: Shape, b: nat): Shape
    requires b < |h.mem|
  {
    var e := b + h.mem[b].size;
    if e < |h.mem| && h.mem[e].free then Without(Taken(AfterBack(h, s, b), e), e) else AfterBack(h, s, b)
  }

  /** The first merge, whether or not it happens. */
  lemma BackStep(h: Heap, s: Shape, b: nat)
    requires Sound(h, s, NOBODY) && b in s.blocks && b !in s.free && b < |h.mem|
    requires FlagsAgree(h.mem, s)
    ensures var m := CoalescePrev(h, b); var e := b + h.mem[b].size; var lo := Lo(h, b);
            && m.b == lo <= b && Sound(m.h, AfterBack(h, s, b), e)
            && |m.h.mem| == |h.mem| && lo < |h.mem|
            && lo in s.blocks && lo in AfterBack(h, s, b).blocks && lo !in AfterBack(h, s, b).free
            && m.h.mem[lo] == h.mem[lo].(size := e - lo)
            && Local(h.mem, m.h.mem, s.blocks, lo, e)
            && (e < |h.mem| ==> m.h.mem[e].free == h.mem[e].free && m.h.mem[e].size == h.mem[e].size)
            && m.h.used == h.used && m.h.log == h.log
  {
    hide RemoveFree, Class, Sound, Local;
    SoundFacts(h, s, NOBODY, b);
    if MergesBack(h, b) {
      LeftNeighbour(h, s, b);
      BackSound(h, s, b, Lo(h, b));
      LocalSize(h.mem, CoalescePrev(h, b).h.mem, s.blocks, Lo(h, b), b + h.mem[b].size);
    } else {
      SoundBut(h, s, b + h.mem[b].size);
      SameLocal(h.mem, s.blocks, b, b + h.mem[b].size);
    }
  }

  lemma SameLocal(a: seq<Line>, heads: set<nat>, lo: nat, hi: nat)
    ensures Local(a, a, heads, lo, hi)
  {
  }

  /** When coalesce_prev merges, it merges with the left neighbour, which is on a list. */
  lemma LeftNeighbour(h: Heap, s: Shape, b: nat)
    requires Sound(h, s, NOBODY) && b in s.blocks && b < |h.mem| && FlagsAgree(h.mem, s) && MergesBack(h, b)
    ensures Lo(h, b) < b && Lo(h, b) in s.free && h.mem[Lo(h, b)].size == b - Lo(h, b)
  {
    hide Lists, Bits, Chained, Apart;
    assert PrevRight(h.mem, s.blocks, b);
  }

  /** PREV_FREE of the merged block: the forward merge clears it. */
  ghost function LoFlag(h: Heap, b: nat): bool
    requires b < |h.mem|
  {
    var e := b + h.mem[b].size;
    !(e < |h.mem| && h.mem[e].free) && Get(h, Lo(h, b)).prevFree
  }

  ghost predicate MergedFacts(h: Heap, g: Heap, s: Shape, b: nat)
    requires b < |h.mem|
  {
    var lo, hi := Lo(h, b), Hi(h, b);
    && lo < hi <= |h.mem| && |g.mem| == |h.mem|
    && lo in AfterForward(h, s, b).blocks && lo !in AfterForward(h, s, b).free
    && Sound(g, AfterForward(h, s, b), hi)
    && g.mem[lo].size == hi - lo && g.mem[lo].prevFree == LoFlag(h, b)
    && Local(h.mem, g.mem, s.blocks, lo, hi)
    && g.used == h.used && g.log == h.log
  }

  lemma MergedSound(h: Heap, s: Shape, b: nat)
    requires Sound(h, s, NOBODY) && b in s.blocks && b !in s.free && b < |h.mem|
    requires FlagsAgree(h.mem, s)
    ensures CoalescePrev(h, b).b == Lo(h, b)
    ensures MergedFacts(h, CoalesceFree(CoalescePrev(h, b).h, Lo(h, b)), s, b)
  {
    hide CoalescePrev, CoalesceNext, Class, Sound, Local, MergesBack, Tiled;
    SoundFacts(h, s, NOBODY, b);
    EdgeIsBlock(h, s, NOBODY, b);
    BackStep(h, s, b);
    var e := b + h.mem[b].size;
    assert NextOf(CoalescePrev(h, b).h, Lo(h, b)) == e;
    if e < |h.mem| && h.mem[e].free {
      SoundFacts(h, s, NOBODY, e);
      ForwardStep(h, CoalescePrev(h, b).h, s, b);
    }
  }

  lemma ForwardStep(h: Heap, m: Heap, s: Shape, b: nat)
    requires b < |h.mem| == |m.mem|
    requires var e := b + h.mem[b].size;
             && e < |h.mem| && h.mem[e].free && e in s.free && e + h.mem[e].size <= |h.mem|
             && Lo(h, b) <= b < e
             && Lo(h, b) in AfterBack(h, s, b).blocks && Lo(h, b) !in AfterBack(h, s, b).free
             && Sound(m, AfterBack(h, s, b), e)
             && m.mem[Lo(h, b)].size == e - Lo(h, b)
             && Local(h.mem, m.mem, s.blocks, Lo(h, b), e)
             && m.mem[e].size == h.mem[e].size
             && m.used == h.used && m.log == h.log
    ensures MergedFacts(h, CoalesceNext(m, Lo(h, b)), s, b)
  {
    hide CoalesceNext, Class, Sound, Local, MergesBack, Tiled;
    var e, lo, hi, t := b + h.mem[b].size, Lo(h, b), Hi(h, b), AfterBack(h, s, b);
    ForwardSound(m, t, lo, e);
    var g := CoalesceNext(m, lo);
    SoundBut(g, AfterForward(h, s, b), hi);
    WidenLocal(h.mem, m.mem, s.blocks, lo, e, lo, hi);
    MoreHeads(m.mem, g.mem, t.blocks, s.blocks, lo, hi);
    LocalTrans(h.mem, m.mem, g.mem, s.blocks, lo, hi);
    LocalSize(h.mem, g.mem, s.blocks, lo, hi);
  }

  lemma MoreHeads(a: seq<Line>, c: seq<Line>, heads: set<nat>, more: set<nat>, lo: nat, hi: nat)
    requires Local(a, c, heads, lo, hi) && heads <= more
    ensures Local(a, c, more, lo, hi)
  {
  }

  ghost function Freed(h: Heap, s: Shape, b: nat): Shape
    requires b < |h.mem|
  {
    Inserted(AfterForward(h, s, b), Lo(h, b))
  }

  ghost predicate CoalescedFacts(h: Heap, g: Heap, s: Shape, b: nat)
    requires b < |h.mem|
  {
    var lo, hi := Lo(h, b), Hi(h, b);
    && lo < hi <= |h.mem| && |g.mem| == |h.mem|
    && lo in Freed(h, s, b).blocks
    && Sound(g, Freed(h, s, b), hi)
    && g.mem[lo].free && g.mem[lo].size == hi - lo && g.mem[lo].prevFree == LoFlag(h, b)
    && Local(h.mem, g.mem, s.blocks, lo, hi)
    && g.used == h.used && g.log == h.log
  }

  lemma CoalescedSound(h: Heap, s: Shape, b: nat)
    requires Sound(h, s, NOBODY) && b in s.blocks && b !in s.free && b < |h.mem|
    requires FlagsAgree(h.mem, s)
    ensures Coalesced(h, b).b == Lo(h, b)
    ensures CoalescedFacts(h, Coalesced(h, b).h, s, b)
  {
    hide CoalescePrev, CoalesceFree, MarkFree, InsertFree, Class, Sound, Local, MergesBack, Tiled, AfterForward,
      OnlyLinks;
    MergedSound(h, s, b);
    var lo, hi, t := Lo(h, b), Hi(h, b), AfterForward(h, s, b);
    var g := CoalesceFree(CoalescePrev(h, b).h, lo);
    MarkFreeSound(g, t, hi, lo);
    var f := MarkFree(g, lo);
    MarkFreeLocal(g.mem, f.mem, s.blocks, lo, hi);
    LocalTrans(h.mem, g.mem, f.mem, s.blocks, lo, hi);
    InsertSound(f, t, hi, lo);
    var r := InsertFree(f, lo, Class(f.mem[lo].size));
    InsertedLine(f.mem, r.mem, t.free + {lo}, lo);
    SoundSubset(g, t, hi);
    AfterBlocks(h, s, b);
    LinksLocal(f.mem, r.mem, t.free + {lo}, s.blocks, lo, hi);
    LocalTrans(h.mem, f.mem, r.mem, s.blocks, lo, hi);
  }

  lemma SoundSubset(h: Heap, s: Shape, but: nat)
    requires Sound(h, s, but)
    ensures s.free <= s.blocks
  {
    hide Tiled, PrevSizes, Lists, Bits;
  }

  lemma AfterBlocks(h: Heap, s: Shape, b: nat)
    requires b < |h.mem|
    ensures AfterForward(h, s, b).blocks <= s.blocks
  {
  }

  lemma InsertedLine(a: seq<Line>, c: seq<Line>, f: set<nat>, b: nat)
    requires OnlyLinks(a, c, f) && b < |a|
    ensures |c| == |a| && c[b].size == a[b].size && c[b].free == a[b].free && c[b].prevFree == a[b].prevFree
  {
  }

  lemma MarkFreeLocal(a: seq<Line>, c: seq<Line>, heads: set<nat>, b: nat, hi: nat)
    requires |c| == |a| && b < hi
    requires forall u :: 0 <= u < |a| && u != b && u != hi - 1 ==> c[u] == a[u]
    ensures Local(a, c, heads, b, hi)
  {
  }

  // ---------------------------------------------------------------- the last owner leaves

  ghost predicate ReleaseFacts(h: Heap, r: Heap, s: Shape, b: nat)
    requires b < |h.mem|
  {
    var lo, hi := Lo(h, b), Hi(h, b);
    && lo < hi <= |h.mem| && |r.mem| == |h.mem|
    && lo in Freed(h, s, b).blocks
    && Sound(r, Freed(h, s, b), NOBODY)
    && r.mem[lo].free && r.mem[lo].size == hi - lo && r.mem[lo].prevFree == LoFlag(h, b)
    && (hi < |h.mem| ==> r.mem[hi].prevFree)
    && Local(h.mem, r.mem, s.blocks, lo, hi)
    && r.used == h.used - 64 * (h.mem[b].size - 1)
  }

  lemma ReleaseSound(h: Heap, s: Shape, b: nat)
    requires Sound(h, s, NOBODY) && b in s.blocks && b !in s.free && b < |h.mem|
    requires FlagsAgree(h.mem, s) && |h.log| <= 60
    ensures Release(h, b).Go? && ReleaseFacts(h, Release(h, b).h, s, b)
    ensures |Release(h, b).h.log| <= |h.log| + 3
  {
    hide Coalesced, Announce, Sound, Local, MergesBack, Tiled, AfterForward, Recover, Lo, Hi;
    var h1 := Push(h, UsedAt).h.(used := h.used - 64 * (h.mem[b].size - 1));
    BookkeepingSound(h, h1, s);
    SameRegion(h, h1, s, b);
    CoalescedSound(h1, s, b);
    var g := Coalesced(h1, b).h;
    HiIsHeader(h, s, b);
    AnnounceSound(g, Freed(h, s, b), Lo(h, b), s.blocks);
    LocalTrans(h.mem, g.mem, Announce(g, Lo(h, b)).h.mem, s.blocks, Lo(h, b), Hi(h, b));
  }

  lemma SameRegion(h: Heap, g: Heap, s: Shape, b: nat)
    requires h.mem == g.mem && b < |h.mem|
    ensures Lo(h, b) == Lo(g, b) && Hi(h, b) == Hi(g, b) && Freed(h, s, b) == Freed(g, s, b)
  {
  }

  lemma HiIsHeader(h: Heap, s: Shape, b: nat)
    requires Sound(h, s, NOBODY) && b in s.blocks && b < |h.mem|
    ensures Hi(h, b) == |h.mem| || Hi(h, b) in s.blocks
  {
    EdgeIsBlock(h, s, NOBODY, b);
    var e := b + h.mem[b].size;
    if e < |h.mem| { EdgeIsBlock(h, s, NOBODY, e); }
    hide Sound;
  }

  lemma AnnounceSound(h: Heap, t: Shape, b: nat, heads: set<nat>)
    requires b < |h.mem| && b in t.blocks && Sound(h, t, b + h.mem[b].size) && |h.log| <= 61
    requires b + h.mem[b].size == |h.mem| || b + h.mem[b].size in heads
    ensures var r := Announce(h, b); var hi := b + h.mem[b].size;
            && r.Go? && Sound(r.h, t, NOBODY) && |r.h.mem| == |h.mem|
            && r.h.mem[b] == h.mem[b]
            && (hi < |h.mem| ==> r.h.mem[hi].prevFree)
            && Local(h.mem, r.h.mem, heads, b, hi)
            && r.h.used == h.used && |r.h.log| <= |h.log| + 2
  {
    hide Lists, Bits, Chained, Apart, PrevSizes, Recover;
    var r := Announce(h, b).h;
    FrameSound(h, r, t, b + h.mem[b].size);
  }

  lemma BookkeepingSound(h: Heap, g: Heap, s: Shape)
    requires Sound(h, s, NOBODY) && g == h.(mem := g.mem, used := g.used, log := g.log) && g.mem == h.mem
    ensures Sound(g, s, NOBODY)
  {
    hide Lists, Bits, Tiled, PrevSizes;
  }

  // ---------------------------------------------------------------- the whole of tlsf_free_internal

  /** A header whose structural fields are those of l. */
  ghost predicate SameStructure(l: Line, m: Line) {
    && m.size == l.size && m.sig == l.sig && m.prev == l.prev && m.next == l.next
    && m.prevFree == l.prevFree && m.prevSize == l.prevSize && m.free == l.free
  }

  lemma EditSound(h: Heap, g: Heap, s: Shape, b: nat)
    requires Sound(h, s, NOBODY) && b in s.blocks && b < |h.mem| == |g.mem|
    requires g == h.(mem := h.mem[b := g.mem[b]], log := g.log) && SameStructure(h.mem[b], g.mem[b])
    ensures Sound(g, s, NOBODY)
  {
    hide Lists, Bits, Tiled, PrevSizes;
    SoundRange(h, s, NOBODY);
    FrameKeep(h, g, s, NOBODY);
  }

  /** Changing owners, type or dc of a live block changes exactly its entry. */
  lemma EditWf(h: Heap, g: Heap, s: Shape, b: nat)
    requires Core(h, s) && b in s.blocks && b < |h.mem| == |g.mem|
    requires g == h.(mem := h.mem[b := g.mem[b]], log := g.log) && SameStructure(h.mem[b], g.mem[b])
    requires !h.mem[b].free && Owned(g.mem[b])
    ensures Core(g, s) && InRange(h.mem, s.blocks) && InRange(g.mem, s.blocks)
    ensures Live(g.mem, s.blocks) == Live(h.mem, s.blocks)[b := EntryOf(g.mem[b])]
    ensures RulesKept(h.mem, g.mem, s.blocks, s.blocks)
    ensures PayloadKept(h.mem, g.mem, Live(h.mem, s.blocks))
  {
    hide Sound, Owned, PayloadKept, RulesKept, Total;
    EditSound(h, g, s, b);
    SoundRange(h, s, NOBODY);
    var e := EntryOf(g.mem[b]);
    assert Live(g.mem, s.blocks) == Live(h.mem, s.blocks)[b := e];
    TotalReplace(Live(h.mem, s.blocks), b, e);
    forall c | c in s.blocks ensures ClientOk(g.mem, s.free, c) {
      assert ClientOk(h.mem, s.free, c);
    }
    EditFrame(h, g, s, b);
  }

  lemma EditFrame(h: Heap, g: Heap, s: Shape, b: nat)
    requires Sound(h, s, NOBODY) && b in s.blocks && b < |h.mem| == |g.mem|
    requires g.mem == h.mem[b := g.mem[b]] && SameStructure(h.mem[b], g.mem[b])
    requires InRange(h.mem, s.blocks)
    ensures RulesKept(h.mem, g.mem, s.blocks, s.blocks)
    ensures PayloadKept(h.mem, g.mem, Live(h.mem, s.blocks))
  {
    hide Lists, Bits, PrevSizes;
    forall rule, c | c in s.blocks && Ruled(h.mem, s.blocks, rule) ensures Obeys(g.mem, c, rule) {
      assert Obeys(h.mem, c, rule) && Follows(h.mem, s.blocks, c);
    }
  }

  /** The headers inside the freed region: the left neighbour, the block, the right neighbour. */
  lemma RegionBlocks(h: Heap, s: Shape, b: nat)
    requires Sound(h, s, NOBODY) && FlagsAgree(h.mem, s) && b in s.blocks && b < |h.mem| && !h.mem[b].free
    ensures InRange(h.mem, s.blocks) && Lo(h, b) in s.blocks && Lo(h, b) <= b < Hi(h, b)
    ensures forall c :: c in s.blocks && Lo(h, b) <= c < Hi(h, b) ==> c == b || h.mem[c].free
    ensures forall c :: c in Freed(h, s, b).blocks && Lo(h, b) <= c < Hi(h, b) ==> c == Lo(h, b)
    ensures SameOutside(s.blocks, Freed(h, s, b).blocks, Lo(h, b), Hi(h, b))
    ensures SameOutside(s.free, Freed(h, s, b).free, Lo(h, b), Hi(h, b))
  {
    hide Freed, SameOutside;
    RegionBefore(h, s, b);
    RegionAfter(h, s, b);
  }

  lemma RegionBefore(h: Heap, s: Shape, b: nat)
    requires Sound(h, s, NOBODY) && FlagsAgree(h.mem, s) && b in s.blocks && b < |h.mem| && !h.mem[b].free
    ensures InRange(h.mem, s.blocks) && Lo(h, b) in s.blocks && Lo(h, b) <= b < Hi(h, b)
    ensures forall c :: c in s.blocks && Lo(h, b) <= c < Hi(h, b) ==> c == b || h.mem[c].free
  {
    hide MergesBack, Lists, Bits, PrevSizes, Chained;
    EdgeIsBlock(h, s, NOBODY, b);
    if MergesBack(h, b) { LeftNeighbour(h, s, b); }
  }

  lemma RegionAfter(h: Heap, s: Shape, b: nat)
    requires Sound(h, s, NOBODY) && FlagsAgree(h.mem, s) && b in s.blocks && b < |h.mem| && !h.mem[b].free
    ensures InRange(h.mem, s.blocks)
    ensures forall c :: c in Freed(h, s, b).blocks && Lo(h, b) <= c < Hi(h, b) ==> c == Lo(h, b)
    ensures SameOutside(s.blocks, Freed(h, s, b).blocks, Lo(h, b), Hi(h, b))
    ensures SameOutside(s.free, Freed(h, s, b).free, Lo(h, b), Hi(h, b))
  {
    hide MergesBack, Lists, Bits, PrevSizes, Chained;
    EdgeIsBlock(h, s, NOBODY, b);
    if MergesBack(h, b) { LeftNeighbour(h, s, b); }
  }

  lemma ReleaseClients(h: Heap, r: Heap, s: Shape, b: nat)
    requires Sound(h, s, NOBODY) && Clients(h.mem, s) && b in s.blocks && b < |h.mem| && !h.mem[b].free
    requires ReleaseFacts(h, r, s, b)
    ensures InRange(h.mem, s.blocks) && InRange(r.mem, Freed(h, s, b).blocks)
    ensures Clients(r.mem, Freed(h, s, b))
    ensures Live(r.mem, Freed(h, s, b).blocks) == Live(h.mem, s.blocks) - {b}
  {
    hide Sound, Local, Lo, Hi, Outside, AfterForward, Owned;
    SoundRange(h, s, NOBODY);
    ClientFlags(h.mem, s);
    RegionBlocks(h, s, b);
    var t := Freed(h, s, b);
    SoundRange(r, t, NOBODY);
    ClientOutside(h.mem, r.mem, s, t, Lo(h, b), Hi(h, b));
    LiveOutside(h.mem, r.mem, s.blocks, t.blocks, Lo(h, b), Hi(h, b));
    OnlyEntry(Live(h.mem, s.blocks), Live(r.mem, t.blocks), Lo(h, b), Hi(h, b), b);
  }

  lemma ClientFlags(mem: seq<Line>, s: Shape)
    requires Clients(mem, s) && InRange(mem, s.blocks)
    ensures FlagsAgree(mem, s)
  {
    forall c | c in s.blocks ensures c < |mem| && (c in s.free <==> mem[c].free) {
      assert ClientOk(mem, s.free, c);
    }
  }

  // ---------------------------------------------------------------- which rules a release breaks

  /** The block that ends at b is free. */
  ghost predicate LeftFree(mem: seq<Line>, blocks: set<nat>, b: nat) {
    exists x :: x in blocks && x < |mem| && x + mem[x].size == b && mem[x].free
  }

  ghost predicate RightFree(mem: seq<Line>, b: nat)
    requires b < |mem|
  {
    b + mem[b].size < |mem| && mem[b + mem[b].size].free
  }

  /**
   * Giving back b breaks the separation when its free left neighbour is not announced, and the
   * announcement when b merges both ways behind a further free block: the forward merge clears the
   * flag that the backward merge had inherited.
   */
  ghost predicate BreaksRule(h: Heap, blocks: set<nat>, b: nat, rule: Rule)
    requires b < |h.mem|
  {
    match rule
    case Separated => !h.mem[b].prevFree && LeftFree(h.mem, blocks, b)
    case Announced => MergesBack(h, b) && RightFree(h.mem, b) && LeftFree(h.mem, blocks, Lo(h, b))
  }

  /** Behind every block but the left neighbour of the merged one the rule holds. */
  lemma ReleaseElsewhere(h: Heap, r: Heap, s: Shape, b: nat, rule: Rule, c: nat)
    requires Sound(h, s, NOBODY) && FlagsAgree(h.mem, s) && b in s.blocks && b < |h.mem| && !h.mem[b].free
    requires ReleaseFacts(h, r, s, b) && Ruled(h.mem, s.blocks, rule)
    requires c in Freed(h, s, b).blocks && c < |r.mem| && c + r.mem[c].size != Lo(h, b)
    ensures Obeys(r.mem, c, rule)
  {
    hide Lists, Bits, PrevSizes, MergesBack, Chained;
    RegionBlocks(h, s, b);
    if c == Lo(h, b) {
      EndObeys(h, s, b, rule);
    } else {
      EdgeIsBlock(h, s, NOBODY, c);
      assert Obeys(h.mem, c, rule);
    }
  }

  /** The block behind the merged one is not free if free blocks were separated. */
  lemma EndObeys(h: Heap, s: Shape, b: nat, rule: Rule)
    requires Sound(h, s, NOBODY) && b in s.blocks && b < |h.mem| && Ruled(h.mem, s.blocks, rule)
    ensures rule.Separated? && Hi(h, b) < |h.mem| ==> !h.mem[Hi(h, b)].free
  {
    hide Lists, Bits, PrevSizes;
    EdgeIsBlock(h, s, NOBODY, b);
    var e := b + h.mem[b].size;
    if e < |h.mem| { assert Obeys(h.mem, e, rule); }
  }

  /** Behind the left neighbour of the merged block the rule depends on that neighbour. */
  lemma ReleaseLeft(h: Heap, r: Heap, s: Shape, b: nat, rule: Rule, x: nat)
    requires Sound(h, s, NOBODY) && FlagsAgree(h.mem, s) && b in s.blocks && b < |h.mem| && !h.mem[b].free
    requires ReleaseFacts(h, r, s, b) && Ruled(h.mem, s.blocks, rule)
    requires x in s.blocks && x < |h.mem| == |r.mem| && x + h.mem[x].size == Lo(h, b)
    ensures x in Freed(h, s, b).blocks && r.mem[x].size == h.mem[x].size
    ensures Obeys(r.mem, x, rule) <==> !(h.mem[x].free && BreaksRule(h, s.blocks, b, rule))
  {
    hide Lists, Bits, Chained, Apart;
    RegionBlocks(h, s, b);
    assert Obeys(h.mem, x, rule) && PrevRight(h.mem, s.blocks, b);
    LeftIsOne(h, s, x, Lo(h, b));
    if MergesBack(h, b) { LeftNeighbour(h, s, b); }
    assert h.mem[x].free ==> LeftFree(h.mem, s.blocks, Lo(h, b));
  }

  /** A block has one left neighbour. */
  lemma LeftIsOne(h: Heap, s: Shape, x: nat, b: nat)
    requires Sound(h, s, NOBODY) && x in s.blocks && x < |h.mem| && x + h.mem[x].size == b
    ensures x < b
    ensures forall y :: y in s.blocks && y < |h.mem| && y + h.mem[y].size == b ==> y == x
  {
    hide Lists, Bits, Chained, PrevSizes;
  }

  /** A release keeps a rule that held exactly unless it is one of the releases that break it. */
  lemma ReleaseRule(h: Heap, r: Heap, s: Shape, b: nat, rule: Rule)
    requires Sound(h, s, NOBODY) && FlagsAgree(h.mem, s) && b in s.blocks && b < |h.mem| && !h.mem[b].free
    requires ReleaseFacts(h, r, s, b) && Ruled(h.mem, s.blocks, rule)
    ensures Ruled(r.mem, Freed(h, s, b).blocks, rule) <==> !BreaksRule(h, s.blocks, b, rule)
  {
    hide Sound, Lo, Hi, AfterForward, MergesBack, Obeys, ReleaseFacts, BreaksRule, SameOutside;
    RegionBlocks(h, s, b);
    SameLength(h, r, s, b);
    if BreaksRule(h, s.blocks, b, rule) {
      var x := BreakingLeft(h, s, b, rule);
      ReleaseLeft(h, r, s, b, rule, x);
    } else {
      forall c | c in Freed(h, s, b).blocks ensures c < |r.mem| && Obeys(r.mem, c, rule) {
        OutsideBlock(h, r, s, b, c);
        if c + r.mem[c].size == Lo(h, b) {
          ReleaseLeft(h, r, s, b, rule, c);
        } else {
          ReleaseElsewhere(h, r, s, b, rule, c);
        }
      }
    }
  }

  /** The rules that the release of b breaks. */
  ghost function BrokenBy(h: Heap, blocks: set<nat>, b: nat): set<Rule>
    requires b < |h.mem|
  {
    set rule: Rule | BreaksRule(h, blocks, b, rule)
  }

  ghost function FreeBreaks(h: Heap, blocks: set<nat>, b: nat, uid: nat): set<Rule>
    requires b < |h.mem|
  {
    if OwnerSet(h.mem[b].uid) == {uid} then BrokenBy(h, blocks, b) else {}
  }

  lemma ReleaseRules(h: Heap, r: Heap, s: Shape, b: nat)
    requires Sound(h, s, NOBODY) && FlagsAgree(h.mem, s) && b in s.blocks && b < |h.mem| && !h.mem[b].free
    requires ReleaseFacts(h, r, s, b)
    ensures RulesBroken(h.mem, r.mem, s.blocks, Freed(h, s, b).blocks, BrokenBy(h, s.blocks, b))
  {
    hide Sound, Freed, ReleaseFacts, BreaksRule, Ruled;
    forall rule | Ruled(h.mem, s.blocks, rule)
      ensures Ruled(r.mem, Freed(h, s, b).blocks, rule) <==> rule !in BrokenBy(h, s.blocks, b)
    {
      ReleaseRule(h, r, s, b, rule);
    }
  }

  lemma SameLength(h: Heap, r: Heap, s: Shape, b: nat)
    requires b < |h.mem| && ReleaseFacts(h, r, s, b)
    ensures |r.mem| == |h.mem| && Sound(r, Freed(h, s, b), NOBODY)
  {
  }

  lemma BreakingLeft(h: Heap, s: Shape, b: nat, rule: Rule) returns (x: nat)
    requires b < |h.mem| && BreaksRule(h, s.blocks, b, rule)
    ensures x in s.blocks && x < |h.mem| && x + h.mem[x].size == Lo(h, b) && h.mem[x].free
  {
    x :| x in s.blocks && x < |h.mem| && x + h.mem[x].size == Lo(h, b) && h.mem[x].free;
  }

  lemma OutsideBlock(h: Heap, r: Heap, s: Shape, b: nat, c: nat)
    requires Sound(h, s, NOBODY) && FlagsAgree(h.mem, s) && b in s.blocks && b < |h.mem| && !h.mem[b].free
    requires ReleaseFacts(h, r, s, b) && c in Freed(h, s, b).blocks
    ensures c < |r.mem| == |h.mem| && c in s.blocks
    ensures c + r.mem[c].size == Lo(h, b) ==> c + h.mem[c].size == Lo(h, b)
  {
    hide Lists, Bits, PrevSizes, MergesBack, Chained;
    RegionBlocks(h, s, b);
  }

  /** The facts about Release do not depend on the owners of the block it starts from. */
  lemma ReleaseFrom(h: Heap, g: Heap, s: Shape, b: nat)
    requires Sound(h, s, NOBODY) && FlagsAgree(h.mem, s) && b in s.blocks && b !in s.free && b < |h.mem|
    requires b < |g.mem| && g == h.(mem := h.mem[b := h.mem[b].(uid := g.mem[b].uid)], log := g.log)
    requires |g.log| <= 60
    ensures Release(g, b).Go? && ReleaseFacts(h, Release(g, b).h, s, b)
    ensures |Release(g, b).h.log| <= |g.log| + 3
  {
    hide Release, Sound, Local, MergesBack, AfterForward, Tiled;
    EditSound(h, g, s, b);
    EditRegion(h, g, s, b);
    ReleaseSound(g, s, b);
    var r := Release(g, b).h;
    InsideLocal(h.mem, g.mem, s.blocks, Lo(h, b), Hi(h, b), b);
    LocalTrans(h.mem, g.mem, r.mem, s.blocks, Lo(h, b), Hi(h, b));
  }

  lemma EditRegion(h: Heap, g: Heap, s: Shape, b: nat)
    requires Sound(h, s, NOBODY) && FlagsAgree(h.mem, s) && b in s.blocks && b < |h.mem| == |g.mem|
    requires g.mem == h.mem[b := h.mem[b].(uid := g.mem[b].uid)]
    ensures Lo(h, b) == Lo(g, b) <= b < Hi(h, b) == Hi(g, b) && Freed(h, s, b) == Freed(g, s, b)
    ensures FlagsAgree(g.mem, s)
  {
    hide Lists, Bits, PrevSizes, Chained;
  }

  ghost function AfterFree(h: Heap, s: Shape, b: nat, uid: nat): Shape
    requires b < |h.mem|
  {
    if OwnerSet(h.mem[b].uid) == {uid} then Freed(h, s, b) else s
  }

  /** The client's view of dropping one owner. */
  function DropOwner(m: map<nat, Entry>, b: nat, uid: nat): map<nat, Entry>
    requires b in m
  {
    if m[b].owners == {uid} then m - {b} else m[b := m[b].(owners := m[b].owners - {uid})]
  }

  lemma LastOwnerLeaves(h: Heap, s: Shape, b: nat, g: Heap)
    requires Core(h, s) && b in s.blocks && b < |h.mem| && !h.mem[b].free && InRange(h.mem, s.blocks)
    requires b < |g.mem| && g == h.(mem := h.mem[b := h.mem[b].(uid := g.mem[b].uid)], log := g.log)
    requires |g.log| <= 60
    ensures var r := Release(g, b); var t := Freed(h, s, b);
            && r.Go? && |r.h.log| <= |g.log| + 3
            && Core(r.h, t) && InRange(r.h.mem, t.blocks)
            && Live(r.h.mem, t.blocks) == Live(h.mem, s.blocks) - {b}
            && RulesBroken(h.mem, r.h.mem, s.blocks, t.blocks, BrokenBy(h, s.blocks, b))
            && PayloadKept(h.mem, r.h.mem, Live(h.mem, s.blocks) - {b})
  {
    hide Release, Sound, Local, MergesBack, Freed, Tiled, Lo, Hi, Owned, PayloadKept, Total, RulesBroken, BrokenBy;
    assert ClientOk(h.mem, s.free, b);
    ClientFlags(h.mem, s);
    ReleaseFrom(h, g, s, b);
    var r, t := Release(g, b).h, Freed(h, s, b);
    ReleaseClients(h, r, s, b);
    TotalRemove(Live(h.mem, s.blocks), b);
    ReleaseRules(h, r, s, b);
    ReleasePayload(h, r, s, b);
  }

  lemma ReleasePayload(h: Heap, r: Heap, s: Shape, b: nat)
    requires Sound(h, s, NOBODY) && FlagsAgree(h.mem, s) && InRange(h.mem, s.blocks)
    requires b in s.blocks && b < |h.mem| && !h.mem[b].free
    requires ReleaseFacts(h, r, s, b)
    ensures PayloadKept(h.mem, r.mem, Live(h.mem, s.blocks) - {b})
  {
    hide Sound, Local, MergesBack, Tiled, Lo, Hi, Freed, PayloadKept;
    RegionBlocks(h, s, b);
    HiIsHeader(h, s, b);
    PayloadLocal(h, r.mem, s, NOBODY, Lo(h, b), Hi(h, b));
    var m := Live(h.mem, s.blocks);
    assert Outside(m, Lo(h, b), Hi(h, b)) == Outside(m - {b}, Lo(h, b), Hi(h, b)) == m - {b};
  }

  /** tlsf_free_internal by an owner: the owner goes, the block goes with its last owner. */
  lemma FreeCorrect(h: Heap, s: Shape, b: nat, uid: nat)
    requires Core(h, s) && |h.log| <= 10
    requires b in s.blocks && b < |h.mem| && !h.mem[b].free && InRange(h.mem, s.blocks)
    requires uid in OwnerSet(h.mem[b].uid)
    ensures var d := FreeInternal(h, b, uid); var t := AfterFree(h, s, b, uid);
            && d.err == Ok && |d.h.log| <= |h.log| + 4
            && Core(d.h, t) && InRange(d.h.mem, t.blocks)
            && b in Live(h.mem, s.blocks)
            && Live(d.h.mem, t.blocks) == DropOwner(Live(h.mem, s.blocks), b, uid)
            && RulesBroken(h.mem, d.h.mem, s.blocks, t.blocks, FreeBreaks(h, s.blocks, b, uid))
            && PayloadKept(h.mem, d.h.mem, Live(d.h.mem, t.blocks))
  {
    hide Release, Sound, Freed, Tiled, RulesBroken, BrokenBy, PayloadKept, Total, DropUid, Dropped, UidFind,
      UidCount, Occurs;
    assert ClientOk(h.mem, s.free, b);
    SoundFacts(h, s, NOBODY, b);
    var u := h.mem[b].uid;
    assert Distinct(u);
    FindIsMember(u, uid);
    DropUidEffect(h, b, uid, 0);
    var g := DropUid(h, b, uid, 0).h;
    OccursOnce(u, uid, 0);
    DroppedOwners(u, uid);
    CountIsSize(Dropped(u, uid, 0));
    if OwnerSet(u) == {uid} {
      LastOwnerLeaves(h, s, b, g);
    } else {
      assert OwnerSet(u) - {uid} != {};
      EditWf(h, g, s, b);
      KeptEntry(h.mem, g.mem, Live(h.mem, s.blocks), b, EntryOf(g.mem[b]));
    }
  }

  lemma KeptEntry(a: seq<Line>, c: seq<Line>, m: map<nat, Entry>, b: nat, e: Entry)
    requires b in m && e.size == m[b].size && PayloadKept(a, c, m)
    ensures PayloadKept(a, c, m[b := e])
  {
  }
}
