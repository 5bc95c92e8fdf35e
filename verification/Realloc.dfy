/** What tlsf_realloc does to a well-formed heap. */
module ReallocProof {
  import opened Mapping
  import opened Heap
  import opened FreeLists
  import opened Invariant
  import opened Abstraction
  import opened MallocProof
  import opened FreeProof

  // ---------------------------------------------------------------- shrinking in place

  ghost function AfterSplit(s: Shape, b: nat, size: nat): Shape {
    Inserted(WithRest(s, b, size), b + size)
  }

  /** The live block b now has n units; its first units and everybody else's payload are as before. */
  ghost predicate ResizeFacts(h: Heap, r: Heap, b: nat, n: nat, kept: nat)
    requires b < |h.mem|
  {
    && |r.mem| == |h.mem|
    && r.mem[b] == h.mem[b].(size := n)
    && (forall u :: b < u < b + kept && u < |h.mem| ==> r.mem[u] == h.mem[u])
    && r.used == h.used + 64 * (n - h.mem[b].size)
  }

  lemma ShrinkSound(h: Heap, s: Shape, b: nat, needed: nat)
    requires Sound(h, s, NOBODY) && h.log == [] && b in s.blocks && b !in s.free && b < |h.mem|
    requires MIN_BLOCK <= needed && needed + MIN_BLOCK <= h.mem[b].size
    ensures var r := Shrink(h, b, needed); var t := AfterSplit(s, b, needed);
            && r.Go? && |r.h.log| <= 2 && Sound(r.h, t, NOBODY)
            && b + needed !in s.blocks
            && Local(h.mem, r.h.mem, s.blocks, b, b + h.mem[b].size)
            && ResizeFacts(h, r.h, b, needed, needed)
            && SplitFacts(h.mem, r.h.mem, b, needed)
  {
    hide Split, Sound, Local, Recover, Tiled, Inserted;
    SoundFacts(h, s, NOBODY, b);
    var h1 := Push(Push(h, FlagsAt(b)).h, UsedAt).h;
    BookkeepingSound(h, h1, s);
    SoundBut(h1, s, b + h.mem[b].size);
    SplitSound(h1, s, b, needed);
    BookkeepingSound(Split(h1, b, needed), Shrink(h, b, needed).h, AfterSplit(s, b, needed));
  }

  // ---------------------------------------------------------------- absorbing the next block

  ghost function AfterAbsorb(s: Shape, y: nat): Shape {
    Without(Taken(s, y), y)
  }

  ghost function AfterExpand(s: Shape, b: nat, y: nat, combined: nat, needed: nat): Shape {
    if Splits(combined, needed) then AfterSplit(AfterAbsorb(s, y), b, needed) else AfterAbsorb(s, y)
  }

  lemma ExpandWholeSound(h: Heap, t: Shape, b: nat, heads: set<nat>)
    requires b < |h.mem| && b in t.blocks && Sound(h, t, b + h.mem[b].size) && |h.log| <= 60
    requires b + h.mem[b].size == |h.mem| || b + h.mem[b].size in heads
    ensures var r := ExpandWhole(h, b); var hi := b + h.mem[b].size;
            && r.Go? && Sound(r.h, t, NOBODY) && |r.h.mem| == |h.mem|
            && (forall u :: b <= u < hi && u < |h.mem| ==> r.h.mem[u] == h.mem[u])
            && Local(h.mem, r.h.mem, heads, b, hi)
            && r.h.used == h.used && |r.h.log| <= |h.log| + 2
  {
    hide Lists, Bits, Chained, Apart, PrevSizes, Recover;
    FrameSound(h, ExpandWhole(h, b).h, t, b + h.mem[b].size);
  }

  /** Unlinking the free right neighbour and taking over its units. */
  lemma AbsorbSound(h: Heap, s: Shape, b: nat, y: nat)
    requires Sound(h, s, NOBODY) && h.log == [] && b in s.blocks && b !in s.free && y in s.free
    requires b < |h.mem| && y < |h.mem| && y == b + h.mem[b].size
    ensures var r := Absorbed(h, b); var hi := y + h.mem[y].size;
            && r.Go? && |r.h.log| <= 2 && Sound(r.h, AfterAbsorb(s, y), hi)
            && b in AfterAbsorb(s, y).blocks && b !in AfterAbsorb(s, y).free
            && |r.h.mem| == |h.mem| && r.h.mem[b] == h.mem[b].(size := hi - b)
            && (forall u :: b < u < y ==> r.h.mem[u] == h.mem[u])
            && Local(h.mem, r.h.mem, s.blocks, b, hi)
            && (hi < |h.mem| ==> r.h.mem[hi].free == h.mem[hi].free)
            && r.h.used == h.used
  {
    hide RemoveFree, Class, Sound, Local, Recover, Tiled, OnlyLinks;
    SoundFacts(h, s, NOBODY, b);
    SoundFacts(h, s, NOBODY, y);
    AloneInside(h, s, NOBODY, b);
    var h1 := RemoveFree(h, y, Class(h.mem[y].size));
    var s1 := Taken(s, y);
    RemoveSound(h, s, NOBODY, y);
    BackLines(h.mem, h1.mem, s, y, b);
    var h3 := Push(Push(h1, FlagsAt(b)).h, UsedAt).h;
    BookkeepingSound(h1, h3, s1);
    SoundBut(h3, s1, y);
    var g := Put(h3, b, Get(h3, b).(size := AddUnits(Get(h, b).size, h.mem[y].size)));
    BackMergeEffect(h3, g, s1, b, y);
    MergeSound(h3, g, s1, b, y);
    LinksLocal(h.mem, h1.mem, s.free - {y}, s.blocks, b, y + h.mem[y].size);
    InsideLocal(h3.mem, g.mem, s.blocks, b, y + h.mem[y].size, b);
    LocalTrans(h.mem, h1.mem, g.mem, s.blocks, b, y + h.mem[y].size);
  }

  /** What both ends of realloc's expansion start from: y is part of b, and its right edge is stale. */
  ghost predicate AbsorbedInto(h: Heap, g: Heap, s: Shape, b: nat, y: nat)
    requires b < |h.mem| && y < |h.mem|
  {
    var hi := y + h.mem[y].size;
    && |g.mem| == |h.mem| && hi <= |h.mem| < MAX_UNITS && y <= |h.mem|
    && g.mem[b] == h.mem[b].(size := h.mem[b].size + h.mem[y].size)
    && (forall u :: b < u < y ==> g.mem[u] == h.mem[u])
    && g.used == h.used && |g.log| <= 2
    && (hi == |h.mem| || hi in s.blocks)
    && Local(h.mem, g.mem, s.blocks, b, hi)
  }

  lemma ExpandCuts(h: Heap, g: Heap, s: Shape, b: nat, y: nat, needed: nat)
    requires b < |h.mem| && y < |h.mem| && y == b + h.mem[b].size && AbsorbedInto(h, g, s, b, y)
    requires Absorbed(h, b) == Go(g) && Sound(g, AfterAbsorb(s, y), y + h.mem[y].size)
    requires b in AfterAbsorb(s, y).blocks && b !in AfterAbsorb(s, y).free
    requires AfterAbsorb(s, y).blocks <= s.blocks
    requires MIN_BLOCK <= h.mem[b].size < needed && Splits(h.mem[b].size + h.mem[y].size, needed)
    ensures var r := Expand(h, b, needed);
            && r.Go? && |r.h.log| <= 4
            && Sound(r.h, AfterSplit(AfterAbsorb(s, y), b, needed), NOBODY)
            && b + needed !in AfterAbsorb(s, y).blocks
            && ExpandFacts(h, r.h, s, b, y, needed)
  {
    hide Absorbed, Split, Sound, Local, Recover, Tiled, Inserted, SplitFacts, AfterAbsorb;
    var t, hi := AfterAbsorb(s, y), y + h.mem[y].size;
    SplitSound(g, t, b, needed);
    var r := Split(g, b, needed);
    SplitHeader(g.mem, r.mem, b, needed);
    MoreHeads(g.mem, r.mem, t.blocks, s.blocks, b, hi);
    LocalTrans(h.mem, g.mem, r.mem, s.blocks, b, hi);
    BookkeepingSound(r, Expand(h, b, needed).h, AfterSplit(t, b, needed));
  }

  lemma ExpandTakesAll(h: Heap, g: Heap, s: Shape, b: nat, y: nat, needed: nat)
    requires b < |h.mem| && y < |h.mem| && y == b + h.mem[b].size && AbsorbedInto(h, g, s, b, y)
    requires Absorbed(h, b) == Go(g) && Sound(g, AfterAbsorb(s, y), y + h.mem[y].size)
    requires b in AfterAbsorb(s, y).blocks
    requires h.mem[b].size < needed <= h.mem[b].size + h.mem[y].size
    requires !Splits(h.mem[b].size + h.mem[y].size, needed)
    ensures var r := Expand(h, b, needed);
            && r.Go? && |r.h.log| <= 4
            && Sound(r.h, AfterAbsorb(s, y), NOBODY)
            && ExpandFacts(h, r.h, s, b, y, needed)
  {
    hide Absorbed, ExpandWhole, Sound, Local, Recover, Tiled, AfterAbsorb;
    var hi := y + h.mem[y].size;
    ExpandWholeSound(g, AfterAbsorb(s, y), b, s.blocks);
    var r := ExpandWhole(g, b).h;
    LocalTrans(h.mem, g.mem, r.mem, s.blocks, b, hi);
    BookkeepingSound(r, Expand(h, b, needed).h, AfterAbsorb(s, y));
  }

  lemma ExpandSound(h: Heap, s: Shape, b: nat, y: nat, needed: nat)
    requires Sound(h, s, NOBODY) && h.log == [] && b in s.blocks && b !in s.free && y in s.free
    requires b < |h.mem| && y < |h.mem| && y == b + h.mem[b].size
    requires MIN_BLOCK <= h.mem[b].size < needed <= h.mem[b].size + h.mem[y].size
    ensures var r := Expand(h, b, needed); var combined := h.mem[b].size + h.mem[y].size;
            && r.Go? && |r.h.log| <= 4
            && Sound(r.h, AfterExpand(s, b, y, combined, needed), NOBODY)
            && (Splits(combined, needed) ==> b + needed !in s.blocks - {y})
            && ExpandFacts(h, r.h, s, b, y, needed)
  {
    hide Absorbed, Expand, Sound, Local, Recover, Tiled, ExpandFacts;
    SoundFacts(h, s, NOBODY, b);
    FreeIsBlock(h, s, NOBODY, y);
    SoundFacts(h, s, NOBODY, y);
    EdgeIsBlock(h, s, NOBODY, y);
    AbsorbSound(h, s, b, y);
    AbsorbBlocks(s, y);
    var g := Absorbed(h, b).h;
    if Splits(h.mem[b].size + h.mem[y].size, needed) {
      ExpandCuts(h, g, s, b, y, needed);
    } else {
      ExpandTakesAll(h, g, s, b, y, needed);
    }
  }

  lemma AbsorbBlocks(s: Shape, y: nat)
    ensures AfterAbsorb(s, y).blocks == s.blocks - {y}
  {
  }

  lemma SplitHeader(a: seq<Line>, c: seq<Line>, b: nat, size: nat)
    requires SplitFacts(a, c, b, size)
    ensures |c| == |a| && b < |a| && c[b] == a[b].(size := size)
    ensures forall u :: b < u < b + size && u < |a| ==> c[u] == a[u]
    ensures b + size < |c| && c[b + size].free && c[b + size].size + size == a[b].size
    ensures b + a[b].size < |c| ==> c[b + a[b].size].prevFree
  {
  }

  ghost predicate ExpandFacts(h: Heap, r: Heap, s: Shape, b: nat, y: nat, needed: nat)
    requires b < |h.mem| && y < |h.mem|
  {
    var combined, hi := h.mem[b].size + h.mem[y].size, y + h.mem[y].size;
    && Local(h.mem, r.mem, s.blocks, b, hi)
    && ResizeFacts(h, r, b, KeptSize(combined, needed), h.mem[b].size)
    && (Splits(combined, needed) ==>
          && b + needed < |r.mem| && r.mem[b + needed].free && r.mem[b + needed].size + needed == combined
          && (hi < |h.mem| ==> r.mem[hi].prevFree))
  }

  // ---------------------------------------------------------------- both in-place cases

  /** The region [b, hi) held only b and free blocks, and holds only b and free blocks afterwards. */
  ghost predicate ResizeRegion(h: Heap, r: Heap, s: Shape, t: Shape, b: nat, hi: nat) {
    && InRange(h.mem, s.blocks) && InRange(r.mem, t.blocks)
    && b in s.blocks && b in t.blocks && b !in t.free && b < hi
    && (hi >= |h.mem| || hi in s.blocks)
    && (forall c :: c in s.blocks && b <= c < hi && c != b ==> h.mem[c].free)
    && (forall c :: c in t.blocks && b <= c < hi && c != b ==> c in t.free && r.mem[c].free)
    && SameOutside(s.blocks, t.blocks, b, hi) && SameOutside(s.free, t.free, b, hi)
  }

  lemma ResizeClients(h: Heap, r: Heap, s: Shape, t: Shape, b: nat, hi: nat, n: nat, kept: nat)
    requires Clients(h.mem, s) && b < |h.mem| && !h.mem[b].free
    requires ResizeRegion(h, r, s, t, b, hi) && ResizeFacts(h, r, b, n, kept)
    requires Local(h.mem, r.mem, s.blocks, b, hi)
    ensures Clients(r.mem, t)
    ensures Live(r.mem, t.blocks) == Live(h.mem, s.blocks)[b := EntryOf(h.mem[b]).(size := n)]
  {
    hide Local, Outside;
    assert ClientOk(h.mem, s.free, b);
    assert EntryOf(r.mem[b]) == EntryOf(h.mem[b]).(size := n);
    ClientOutside(h.mem, r.mem, s, t, b, hi);
    LiveOutside(h.mem, r.mem, s.blocks, t.blocks, b, hi);
    OnlyEntry(Live(h.mem, s.blocks), Live(r.mem, t.blocks), b, hi, b);
  }

  lemma ResizePayload(h: Heap, r: Heap, s: Shape, t: Shape, b: nat, hi: nat, n: nat, kept: nat)
    requires Sound(h, s, NOBODY) && b < |h.mem| && !h.mem[b].free
    requires ResizeRegion(h, r, s, t, b, hi) && ResizeFacts(h, r, b, n, kept)
    requires Local(h.mem, r.mem, s.blocks, b, hi)
    ensures PayloadKept(h.mem, r.mem, Live(h.mem, s.blocks)[b := EntryOf(h.mem[b]).(size := kept)])
  {
    hide Sound, Local;
    PayloadLocal(h, r.mem, s, NOBODY, b, hi);
    var m := Live(h.mem, s.blocks);
    assert m - {b} == Outside(m, b, hi);
    AddPayload(h.mem, r.mem, m - {b}, b, EntryOf(h.mem[b]).(size := kept));
    assert (m - {b})[b := EntryOf(h.mem[b]).(size := kept)] == m[b := EntryOf(h.mem[b]).(size := kept)];
  }

  lemma AddPayload(a: seq<Line>, c: seq<Line>, m: map<nat, Entry>, b: nat, e: Entry)
    requires PayloadKept(a, c, m)
    requires forall u :: b < u < b + e.size && u < |a| ==> c[u] == a[u]
    ensures PayloadKept(a, c, m[b := e])
  {
  }

  lemma ResizeWf(h: Heap, r: Heap, s: Shape, t: Shape, b: nat, hi: nat, n: nat, kept: nat)
    requires Core(h, s) && b < |h.mem| && !h.mem[b].free
    requires Sound(r, t, NOBODY)
    requires ResizeRegion(h, r, s, t, b, hi) && ResizeFacts(h, r, b, n, kept)
    requires Local(h.mem, r.mem, s.blocks, b, hi)
    ensures Core(r, t)
    ensures b in Live(h.mem, s.blocks)
    ensures Live(r.mem, t.blocks) == Live(h.mem, s.blocks)[b := EntryOf(h.mem[b]).(size := n)]
    ensures PayloadKept(h.mem, r.mem, Live(h.mem, s.blocks)[b := EntryOf(h.mem[b]).(size := kept)])
  {
    hide Sound, Local, Clients, PayloadKept, Total, SameOutside;
    ResizeClients(h, r, s, t, b, hi, n, kept);
    ResizePayload(h, r, s, t, b, hi, n, kept);
    TotalReplace(Live(h.mem, s.blocks), b, EntryOf(h.mem[b]).(size := n));
  }

  lemma ShrinkRegion(h: Heap, r: Heap, s: Shape, b: nat, needed: nat)
    requires Sound(h, s, NOBODY) && b in s.blocks && b !in s.free && b < |h.mem|
    requires MIN_BLOCK <= needed && needed + MIN_BLOCK <= h.mem[b].size
    requires Sound(r, AfterSplit(s, b, needed), NOBODY) && SplitFacts(h.mem, r.mem, b, needed)
    ensures ResizeRegion(h, r, s, AfterSplit(s, b, needed), b, b + h.mem[b].size)
  {
    AloneInside(h, s, NOBODY, b);
    EdgeIsBlock(h, s, NOBODY, b);
    SoundRange(r, AfterSplit(s, b, needed), NOBODY);
    hide Sound;
  }

  lemma ExpandRegion(h: Heap, r: Heap, s: Shape, b: nat, y: nat, needed: nat)
    requires Sound(h, s, NOBODY) && FlagsAgree(h.mem, s) && b in s.blocks && b !in s.free && y in s.free
    requires b < |h.mem| && y < |h.mem| && y == b + h.mem[b].size
    requires MIN_BLOCK <= h.mem[b].size < needed <= h.mem[b].size + h.mem[y].size
    requires Sound(r, AfterExpand(s, b, y, h.mem[b].size + h.mem[y].size, needed), NOBODY)
    requires ExpandFacts(h, r, s, b, y, needed)
    ensures ResizeRegion(h, r, s, AfterExpand(s, b, y, h.mem[b].size + h.mem[y].size, needed), b, y + h.mem[y].size)
  {
    hide Sound, Local, ResizeFacts;
    FreeIsBlock(h, s, NOBODY, y);
    AloneInside(h, s, NOBODY, b);
    AloneInside(h, s, NOBODY, y);
    EdgeIsBlock(h, s, NOBODY, y);
    SoundRange(r, AfterExpand(s, b, y, h.mem[b].size + h.mem[y].size, needed), NOBODY);
  }

  // ---------------------------------------------------------------- writes inside one live block

  /** g differs from h only in payload units of the live block b. */
  ghost predicate OnlyPayload(h: Heap, g: Heap, b: nat)
    requires b < |h.mem|
  {
    && |g.mem| == |h.mem| && g == h.(mem := g.mem)
    && forall u :: 0 <= u < |h.mem| && !(b < u < b + h.mem[b].size) ==> g.mem[u] == h.mem[u]
  }

  /** A client that writes its payload cannot disturb the allocator or another block. */
  lemma PayloadEdit(h: Heap, g: Heap, s: Shape, b: nat)
    requires Core(h, s) && b in s.blocks && b < |h.mem| && OnlyPayload(h, g, b)
    requires InRange(h.mem, s.blocks)
    ensures Core(g, s) && InRange(g.mem, s.blocks)
    ensures Live(g.mem, s.blocks) == Live(h.mem, s.blocks)
    ensures RulesKept(h.mem, g.mem, s.blocks, s.blocks)
    ensures PayloadKept(h.mem, g.mem, Live(h.mem, s.blocks) - {b})
  {
    hide Sound, Owned, PayloadKept, RulesKept, Total;
    AloneInside(h, s, NOBODY, b);
    assert forall c :: c in s.blocks ==> g.mem[c] == h.mem[c];
    FrameKeep(h, g, s, NOBODY);
    forall c | c in s.blocks ensures ClientOk(g.mem, s.free, c) {
      assert ClientOk(h.mem, s.free, c);
    }
    assert Live(g.mem, s.blocks) == Live(h.mem, s.blocks);
    PayloadEditFrame(h, g, s, b);
  }

  lemma PayloadEditFrame(h: Heap, g: Heap, s: Shape, b: nat)
    requires Sound(h, s, NOBODY) && b in s.blocks && b < |h.mem| && OnlyPayload(h, g, b)
    requires InRange(h.mem, s.blocks) && forall c :: c in s.blocks ==> g.mem[c] == h.mem[c]
    ensures RulesKept(h.mem, g.mem, s.blocks, s.blocks)
    ensures PayloadKept(h.mem, g.mem, Live(h.mem, s.blocks) - {b})
  {
    hide Lists, Bits, PrevSizes;
    forall rule, c | c in s.blocks && Ruled(h.mem, s.blocks, rule) ensures Obeys(g.mem, c, rule) {
      assert Obeys(h.mem, c, rule) && Follows(h.mem, s.blocks, c);
    }
  }

  // ---------------------------------------------------------------- realloc_try_inplace

  /** Whether realloc_try_inplace finds room, in terms of the block and its right neighbour. */
  ghost predicate FitsInPlace(h: Heap, b: nat, needed: nat)
    requires b < |h.mem|
  {
    var cur, y := h.mem[b].size, b + h.mem[b].size;
    needed <= cur || (y < |h.mem| && h.mem[y].free && needed <= cur + h.mem[y].size)
  }

  /** The units the block may use in place, and its size afterwards. */
  ghost function Room(h: Heap, b: nat, needed: nat): nat
    requires b < |h.mem| && FitsInPlace(h, b, needed)
  {
    if needed <= h.mem[b].size then h.mem[b].size else h.mem[b].size + h.mem[b + h.mem[b].size].size
  }

  ghost function AfterInPlace(h: Heap, s: Shape, b: nat, needed: nat): Shape
    requires b < |h.mem| && FitsInPlace(h, b, needed)
  {
    var cur := h.mem[b].size;
    if needed <= cur then (if Splits(cur, needed) then AfterSplit(s, b, needed) else s)
    else AfterExpand(s, b, b + cur, Room(h, b, needed), needed)
  }

  /** Only the size of b changes, and what fits of its payload stays in place. */
  ghost predicate InPlaceFacts(h: Heap, r: Heap, s: Shape, t: Shape, b: nat, needed: nat)
    requires b < |h.mem| && FitsInPlace(h, b, needed) && InRange(h.mem, s.blocks)
  {
    var n := KeptSize(Room(h, b, needed), needed);
    && |r.log| <= 4
    && Core(r, t) && InRange(r.mem, t.blocks)
    && b in Live(h.mem, s.blocks)
    && Live(r.mem, t.blocks) == Live(h.mem, s.blocks)[b := EntryOf(h.mem[b]).(size := n)]
    && PayloadKept(h.mem, r.mem, Live(h.mem, s.blocks)[b := EntryOf(h.mem[b]).(size := Min(n, h.mem[b].size))])
  }

  lemma ShrinkCorrect(h: Heap, s: Shape, b: nat, needed: nat)
    requires Wf(h, s) && b in s.blocks && b < |h.mem| && !h.mem[b].free && InRange(h.mem, s.blocks)
    requires MIN_BLOCK <= needed <= h.mem[b].size
    ensures Shrink(h, b, needed).Go?
    ensures InPlaceFacts(h, Shrink(h, b, needed).h, s, AfterInPlace(h, s, b, needed), b, needed)
  {
    hide Shrink, Sound, Clients, PayloadKept, Total, ResizeFacts, ResizeRegion, SplitFacts, Local, AfterSplit, EntryOf;
    if Splits(h.mem[b].size, needed) {
      ListedIsFree(h, s, b);
      ShrinkSound(h, s, b, needed);
      var r := Shrink(h, b, needed).h;
      ShrinkRegion(h, r, s, b, needed);
      ResizeWf(h, r, s, AfterSplit(s, b, needed), b, b + h.mem[b].size, needed, needed);
      SoundRange(r, AfterSplit(s, b, needed), NOBODY);
    } else {
      ShrinkNothing(h, b, needed);
      SameEntry(h, s, b);
    }
  }

  lemma ListedIsFree(h: Heap, s: Shape, b: nat)
    requires Core(h, s) && b in s.blocks && b < |h.mem|
    ensures b in s.free <==> h.mem[b].free
    ensures h.mem[b].size >= MIN_BLOCK && b + h.mem[b].size <= |h.mem| < MAX_UNITS
    ensures h.mem[b].sig == MAGIC48
  {
    hide Lists, Bits, PrevSizes, Owned;
    assert ClientOk(h.mem, s.free, b);
  }

  lemma ShrinkNothing(h: Heap, b: nat, needed: nat)
    requires b < |h.mem| && needed <= h.mem[b].size && !Splits(h.mem[b].size, needed)
    ensures Shrink(h, b, needed) == Go(h)
  {
  }

  lemma SameEntry(h: Heap, s: Shape, b: nat)
    requires InRange(h.mem, s.blocks) && b in s.blocks && !h.mem[b].free
    ensures b in Live(h.mem, s.blocks)
    ensures Live(h.mem, s.blocks)[b := EntryOf(h.mem[b]).(size := h.mem[b].size)] == Live(h.mem, s.blocks)
    ensures PayloadKept(h.mem, h.mem, Live(h.mem, s.blocks))
  {
  }

  lemma ExpandCorrect(h: Heap, s: Shape, b: nat, needed: nat)
    requires Wf(h, s) && b in s.blocks && b < |h.mem| && !h.mem[b].free && InRange(h.mem, s.blocks)
    requires h.mem[b].size < needed && FitsInPlace(h, b, needed)
    ensures Expand(h, b, needed).Go?
    ensures InPlaceFacts(h, Expand(h, b, needed).h, s, AfterInPlace(h, s, b, needed), b, needed)
  {
    hide Expand, Sound, Clients, PayloadKept, Total, ResizeRegion, SplitFacts, Local, AfterExpand, EntryOf, ResizeFacts;
    ListedIsFree(h, s, b);
    var y := b + h.mem[b].size;
    EdgeIsBlock(h, s, NOBODY, b);
    ListedIsFree(h, s, y);
    ClientFlags(h.mem, s);
    ExpandSound(h, s, b, y, needed);
    var r, t := Expand(h, b, needed).h, AfterExpand(s, b, y, h.mem[b].size + h.mem[y].size, needed);
    ExpandRegion(h, r, s, b, y, needed);
    ResizeWf(h, r, s, t, b, y + h.mem[y].size, KeptSize(Room(h, b, needed), needed), h.mem[b].size);
    SoundRange(r, t, NOBODY);
  }

  lemma InPlaceCorrect(h: Heap, s: Shape, b: nat, needed: nat)
    requires Wf(h, s) && b in s.blocks && b < |h.mem| && !h.mem[b].free && InRange(h.mem, s.blocks)
    requires MIN_BLOCK <= needed
    ensures TryInPlace(h, b, needed).Yes? <==> FitsInPlace(h, b, needed)
    ensures TryInPlace(h, b, needed).No? <==> !FitsInPlace(h, b, needed)
    ensures FitsInPlace(h, b, needed) ==>
      InPlaceFacts(h, TryInPlace(h, b, needed).h, s, AfterInPlace(h, s, b, needed), b, needed)
  {
    hide Expand, Shrink, Core, InPlaceFacts, AfterInPlace;
    ListedIsFree(h, s, b);
    var y := b + h.mem[b].size;
    WfEdge(h, s, b);
    if y < |h.mem| { ListedIsFree(h, s, y); }
    if needed <= h.mem[b].size {
      ShrinkCorrect(h, s, b, needed);
    } else if FitsInPlace(h, b, needed) {
      ExpandCorrect(h, s, b, needed);
    }
  }

  lemma WfEdge(h: Heap, s: Shape, b: nat)
    requires Core(h, s) && b in s.blocks && b < |h.mem|
    ensures b + h.mem[b].size == |h.mem| || b + h.mem[b].size in s.blocks
  {
    hide Sound, Clients;
    EdgeIsBlock(h, s, NOBODY, b);
  }

  // ---------------------------------------------------------------- which rules resizing breaks

  lemma ResizeRule(h: Heap, r: Heap, s: Shape, t: Shape, b: nat, hi: nat, n: nat, kept: nat, rule: Rule)
    requires Sound(h, s, NOBODY) && Ruled(h.mem, s.blocks, rule) && b < |h.mem| && !h.mem[b].free
    requires ResizeRegion(h, r, s, t, b, hi) && ResizeFacts(h, r, b, n, kept)
    requires Local(h.mem, r.mem, s.blocks, b, hi)
    requires forall c :: c in t.blocks && b <= c < hi ==> Obeys(r.mem, c, rule)
    ensures Ruled(r.mem, t.blocks, rule)
  {
    hide Lists, Bits, PrevSizes;
    forall c | c in t.blocks ensures c < |r.mem| && Obeys(r.mem, c, rule) {
      if !(b <= c < hi) {
        assert c in s.blocks;
        assert Obeys(h.mem, c, rule) && Follows(h.mem, s.blocks, c);
      }
    }
  }

  /** Cutting b in place breaks a rule exactly if it is the separation and the right neighbour is free. */
  ghost function CutBreaks(h: Heap, b: nat): set<Rule>
    requires b < |h.mem|
  {
    if RightFree(h.mem, b) then {Separated} else {}
  }

  lemma ShrinkRules(h: Heap, s: Shape, b: nat, needed: nat)
    requires Wf(h, s) && b in s.blocks && b < |h.mem| && !h.mem[b].free && InRange(h.mem, s.blocks)
    requires MIN_BLOCK <= needed && Splits(h.mem[b].size, needed)
    ensures Shrink(h, b, needed).Go?
    ensures RulesBroken(h.mem, Shrink(h, b, needed).h.mem, s.blocks, AfterSplit(s, b, needed).blocks, CutBreaks(h, b))
  {
    hide Shrink, Sound, Clients, Total, Local, ResizeRegion, SplitFacts, ResizeFacts, Ruled, Obeys;
    ListedIsFree(h, s, b);
    ShrinkSound(h, s, b, needed);
    var r, t, hi := Shrink(h, b, needed).h, AfterSplit(s, b, needed), b + h.mem[b].size;
    ShrinkRegion(h, r, s, b, needed);
    forall rule | Ruled(h.mem, s.blocks, rule)
      ensures Ruled(r.mem, t.blocks, rule) <==> rule !in CutBreaks(h, b)
    {
      RestObeys(h, r, s, t, b, needed, rule);
      if Obeys(r.mem, b + needed, rule) {
        ResizeRule(h, r, s, t, b, hi, needed, needed, rule);
      } else {
        NotRuled(r.mem, t.blocks, b + needed, rule);
      }
    }
  }

  lemma NotRuled(mem: seq<Line>, blocks: set<nat>, b: nat, rule: Rule)
    requires b in blocks && b < |mem| && !Obeys(mem, b, rule)
    ensures !Ruled(mem, blocks, rule)
  {
  }

  lemma RestObeys(h: Heap, r: Heap, s: Shape, t: Shape, b: nat, needed: nat, rule: Rule)
    requires b < |h.mem| && b in s.blocks && t == AfterSplit(s, b, needed) && !h.mem[b].free
    requires SplitFacts(h.mem, r.mem, b, needed) && Local(h.mem, r.mem, s.blocks, b, b + h.mem[b].size)
    requires 0 < needed < h.mem[b].size
    requires Sound(h, s, NOBODY)
    ensures b + needed < |r.mem| && b + needed in t.blocks
    ensures Obeys(r.mem, b + needed, rule) <==> rule !in CutBreaks(h, b)
    ensures forall c :: c in t.blocks && b <= c < b + h.mem[b].size && c != b + needed ==>
      c < |r.mem| && Obeys(r.mem, c, rule)
  {
    AloneInside(h, s, NOBODY, b);
    hide Sound;
  }

  lemma ExpandRules(h: Heap, s: Shape, b: nat, needed: nat)
    requires Wf(h, s) && b in s.blocks && b < |h.mem| && !h.mem[b].free && InRange(h.mem, s.blocks)
    requires h.mem[b].size < needed && FitsInPlace(h, b, needed)
    ensures Expand(h, b, needed).Go?
    ensures RulesKept(h.mem, Expand(h, b, needed).h.mem, s.blocks, AfterInPlace(h, s, b, needed).blocks)
  {
    hide Expand, Sound, Clients, Total, Local, ResizeRegion, AfterExpand, ResizeFacts, ExpandFacts, Ruled, Obeys;
    ListedIsFree(h, s, b);
    var y := b + h.mem[b].size;
    EdgeIsBlock(h, s, NOBODY, b);
    ListedIsFree(h, s, y);
    ClientFlags(h.mem, s);
    ExpandSound(h, s, b, y, needed);
    var r, t := Expand(h, b, needed).h, AfterExpand(s, b, y, h.mem[b].size + h.mem[y].size, needed);
    var hi, n := y + h.mem[y].size, KeptSize(h.mem[b].size + h.mem[y].size, needed);
    ExpandRegion(h, r, s, b, y, needed);
    SoundRange(r, t, NOBODY);
    forall rule | Ruled(h.mem, s.blocks, rule) ensures Ruled(r.mem, t.blocks, rule) {
      ExpandObeys(h, r, s, t, b, y, needed, rule);
      ResizeRule(h, r, s, t, b, hi, n, h.mem[b].size, rule);
    }
  }

  lemma ExpandObeys(h: Heap, r: Heap, s: Shape, t: Shape, b: nat, y: nat, needed: nat, rule: Rule)
    requires Sound(h, s, NOBODY) && b < |h.mem| && y < |h.mem| && y == b + h.mem[b].size
    requires b in s.blocks && y in s.blocks && !h.mem[b].free && h.mem[y].free
    requires h.mem[b].size < needed <= h.mem[b].size + h.mem[y].size
    requires t == AfterExpand(s, b, y, h.mem[b].size + h.mem[y].size, needed)
    requires ExpandFacts(h, r, s, b, y, needed) && Ruled(h.mem, s.blocks, rule)
    ensures InRange(r.mem, t.blocks) ==>
      forall c :: c in t.blocks && b <= c < y + h.mem[y].size ==> Obeys(r.mem, c, rule)
    ensures Local(h.mem, r.mem, s.blocks, b, y + h.mem[y].size)
    ensures ResizeFacts(h, r, b, KeptSize(h.mem[b].size + h.mem[y].size, needed), h.mem[b].size)
  {
    hide Sound, Ruled;
    RegionAlone(h, s, t, b, y, needed);
    RuledAt(h.mem, s.blocks, y, rule);
  }

  lemma RuledAt(mem: seq<Line>, blocks: set<nat>, b: nat, rule: Rule)
    requires Ruled(mem, blocks, rule) && b in blocks
    ensures b < |mem| && Obeys(mem, b, rule)
  {
  }

  /** After the expansion the region holds b and, if it was cut, the rest. */
  lemma RegionAlone(h: Heap, s: Shape, t: Shape, b: nat, y: nat, needed: nat)
    requires Sound(h, s, NOBODY) && b < |h.mem| && y < |h.mem| && y == b + h.mem[b].size
    requires b in s.blocks && y in s.blocks
    requires t == AfterExpand(s, b, y, h.mem[b].size + h.mem[y].size, needed)
    ensures forall c :: c in t.blocks && b <= c < y + h.mem[y].size ==>
      c == b || (Splits(h.mem[b].size + h.mem[y].size, needed) && c == b + needed)
  {
    hide Sound;
    AloneInside(h, s, NOBODY, b);
    AloneInside(h, s, NOBODY, y);
  }

  // ---------------------------------------------------------------- malloc, copy and free

  lemma CopyEffect(h: Heap, b: nat, to: nat, n: nat)
    requires b + n < |h.mem| && to + n < |h.mem|
    ensures var g := Copy(h, b + 1, to + 1, n);
            && g == h.(mem := g.mem) && |g.mem| == |h.mem|
            && (forall u :: 0 <= u < |h.mem| && !(to < u < to + 1 + n) ==> g.mem[u] == h.mem[u])
            && g.mem[to + 1..to + 1 + n] == h.mem[b + 1..b + 1 + n]
  {
    var g := Copy(h, b + 1, to + 1, n);
    var copied, source := g.mem[to + 1..to + 1 + n], h.mem[b + 1..b + 1 + n];
    forall i | 0 <= i < n ensures copied[i] == source[i] {
      assert copied[i] == g.mem[to + 1 + i] == Get(h, b + 1 + i);
    }
  }

  /** The units that realloc keeps when it moves the block. */
  ghost function KeptUnits(h: Heap, b: nat, total: nat): nat
    requires b < |h.mem|
  {
    Min(h.mem[b].size, total)
  }

  /** The payload units that were at b are at `to` now. */
  ghost predicate Moved(a: seq<Line>, c: seq<Line>, b: nat, to: nat, kept: nat) {
    && 0 < kept && b + kept <= |a| && to + kept <= |c|
    && c[to + 1..to + kept] == a[b + 1..b + kept]
  }

  /** The result of the malloc + memcpy + free path. */
  ghost predicate MoveFacts(
    h: Heap, r: Heap, s: Shape, t: Shape, b: nat, to: nat, total: nat, uid: nat, broken: set<Rule>)
    requires b < |h.mem| && to < |h.mem| && InRange(h.mem, s.blocks)
  {
    var m := Live(h.mem, s.blocks);
    && Core(r, t) && InRange(r.mem, t.blocks)
    && b in m && to !in m
    && Live(r.mem, t.blocks)
       == m[to := Entry(KeptSize(h.mem[to].size, total), {uid}, m[b].dtype % 0x8000, false)] - {b}
    && RulesBroken(h.mem, r.mem, s.blocks, t.blocks, broken)
    && PayloadKept(h.mem, r.mem, m - {b})
    && Moved(h.mem, r.mem, b, to, KeptUnits(h, b, total))
  }

  /** Copying the payload of b into the freshly allocated block `to`. */
  lemma CopyCorrect(c: Heap, s: Shape, b: nat, to: nat, kept: nat)
    requires Core(c, s) && InRange(c.mem, s.blocks)
    requires b in Live(c.mem, s.blocks) && to in Live(c.mem, s.blocks) && b != to
    requires 0 < kept <= c.mem[b].size && kept <= c.mem[to].size
    ensures var g := Copy(c, b + 1, to + 1, kept - 1);
            && Core(g, s) && InRange(g.mem, s.blocks) && g.log == c.log
            && Live(g.mem, s.blocks) == Live(c.mem, s.blocks)
            && RulesKept(c.mem, g.mem, s.blocks, s.blocks)
            && PayloadKept(c.mem, g.mem, Live(c.mem, s.blocks) - {to})
            && Moved(c.mem, g.mem, b, to, kept)
  {
    hide Core, RulesKept, PayloadKept, Copy, EntryOf;
    ListedIsFree(c, s, b);
    ListedIsFree(c, s, to);
    CopyEffect(c, b, to, kept - 1);
    PayloadEdit(c, Copy(c, b + 1, to + 1, kept - 1), s, to);
  }

  lemma FreeListed(h: Heap, s: Shape, b: nat)
    requires Core(h, s) && b in s.free
    ensures b in s.blocks && b < |h.mem| && h.mem[b].free
  {
    FreeIsBlock(h, s, NOBODY, b);
    SoundRange(h, s, NOBODY);
    hide Sound, Owned;
    assert ClientOk(h.mem, s.free, b);
  }

  /** Reading a live entry back from its header. */
  lemma LiveHeader(h: Heap, s: Shape, b: nat)
    requires InRange(h.mem, s.blocks) && b in Live(h.mem, s.blocks)
    ensures b in s.blocks && b < |h.mem| && !h.mem[b].free && EntryOf(h.mem[b]) == Live(h.mem, s.blocks)[b]
    ensures h.mem[b].size == Live(h.mem, s.blocks)[b].size
    ensures OwnerSet(h.mem[b].uid) == Live(h.mem, s.blocks)[b].owners
  {
  }

  lemma KeptTrans(a: seq<Line>, b: seq<Line>, c: seq<Line>, m: map<nat, Entry>)
    requires PayloadKept(a, b, m) && PayloadKept(b, c, m)
    ensures PayloadKept(a, c, m)
  {
  }

  lemma KeptFewer(a: seq<Line>, c: seq<Line>, m: map<nat, Entry>, few: map<nat, Entry>)
    requires PayloadKept(a, c, m) && forall b :: b in few ==> b in m && few[b].size <= m[b].size
    ensures PayloadKept(a, c, few)
  {
  }

  lemma MovedTrans(a: seq<Line>, c: seq<Line>, g: seq<Line>, d: seq<Line>, m: map<nat, Entry>, n: map<nat, Entry>,
                   b: nat, to: nat, kept: nat)
    requires PayloadKept(a, c, m) && b in m && kept <= m[b].size
    requires Moved(c, g, b, to, kept)
    requires PayloadKept(g, d, n) && to in n && kept <= n[to].size
    ensures Moved(a, d, b, to, kept)
  {
    assert c[b + 1..b + kept] == a[b + 1..b + kept];
    assert d[to + 1..to + kept] == g[to + 1..to + kept];
  }

  lemma MoveCorrect(h: Heap, s: Shape, b: nat, to: nat, total: nat, uid: nat) returns (t: Shape)
    requires Wf(h, s) && InRange(h.mem, s.blocks)
    requires b in s.blocks && !h.mem[b].free && OwnerSet(h.mem[b].uid) == {uid} && uid != 0
    requires to in s.free && to < |h.mem| && MIN_BLOCK <= total <= h.mem[to].size
    ensures var c := Claimed(h, to, total, uid, h.mem[b].dtype);
            && c.Go?
            && var g := Copy(c.h, b + 1, to + 1, KeptUnits(h, b, total) - 1);
            && var t1 := AfterMalloc(s, to, h.mem[to].size, total);
            && var d := FreeInternal(g, b, uid);
            && d.err == Ok && |d.h.log| <= 9
            && |g.mem| == |h.mem| && Core(g, t1) && RulesKept(h.mem, g.mem, s.blocks, t1.blocks)
            && MoveFacts(h, d.h, s, t, b, to, total, uid, BrokenBy(g, t1.blocks, b))
  {
    hide Core, Claimed, RulesBroken, BrokenBy, PayloadKept, Copy, FreeInternal, Moved, EntryOf, AfterMalloc,
      AfterFree, Live, OwnerSet;
    ListedIsFree(h, s, b);
    FreeListed(h, s, to);
    MallocWf(h, s, to, total, uid, h.mem[b].dtype);
    var c, t1 := Claimed(h, to, total, uid, h.mem[b].dtype).h, AfterMalloc(s, to, h.mem[to].size, total);
    var kept := KeptUnits(h, b, total);
    var m := Live(h.mem, s.blocks);
    IsLive(h, s, b);
    LiveHeader(c, t1, b);
    LiveHeader(c, t1, to);
    CopyCorrect(c, t1, b, to, kept);
    var g := Copy(c, b + 1, to + 1, kept - 1);
    LiveHeader(g, t1, b);
    FreeCorrect(g, t1, b, uid);
    t := AfterFree(g, t1, b, uid);
    var d := FreeInternal(g, b, uid).h;
    var n := Live(d.mem, t.blocks);
    assert n == Live(c.mem, t1.blocks) - {b};
    MovedTrans(h.mem, c.mem, g.mem, d.mem, m, n, b, to, kept);
    KeptFewer(h.mem, c.mem, m, m - {b});
    KeptFewer(c.mem, g.mem, Live(c.mem, t1.blocks) - {to}, m - {b});
    KeptFewer(g.mem, d.mem, n, m - {b});
    KeptTrans(h.mem, c.mem, g.mem, m - {b});
    KeptTrans(h.mem, g.mem, d.mem, m - {b});
    RulesTrans(h.mem, c.mem, g.mem, s.blocks, t1.blocks, t1.blocks, {});
    RulesTrans(h.mem, g.mem, d.mem, s.blocks, t1.blocks, t.blocks, BrokenBy(g, t1.blocks, b));
  }

  lemma RulesTrans(a: seq<Line>, c: seq<Line>, d: seq<Line>,
                   was: set<nat>, mid: set<nat>, now: set<nat>, broken: set<Rule>)
    requires RulesKept(a, c, was, mid) && RulesBroken(c, d, mid, now, broken)
    ensures RulesBroken(a, d, was, now, broken)
  {
    hide Ruled;
    forall rule | Ruled(a, was, rule) ensures Ruled(d, now, rule) <==> rule !in broken {
      assert Ruled(c, mid, rule);
    }
  }

  lemma IsLive(h: Heap, s: Shape, b: nat)
    requires InRange(h.mem, s.blocks) && b in s.blocks && !h.mem[b].free
    ensures b in Live(h.mem, s.blocks) && Live(h.mem, s.blocks)[b] == EntryOf(h.mem[b])
    ensures Live(h.mem, s.blocks)[b].size == h.mem[b].size && Live(h.mem, s.blocks)[b].dtype == h.mem[b].dtype
    ensures Live(h.mem, s.blocks)[b].owners == OwnerSet(h.mem[b].uid)
    ensures Live(h.mem, s.blocks)[b].dc == h.mem[b].dc
  {
  }
}
