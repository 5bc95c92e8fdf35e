/** What tlsf_malloc_internal does to a well-formed heap. */
module MallocProof {
  import opened Mapping
  import opened Heap
  import opened FreeLists
  import opened Invariant
  import opened Abstraction

  predicate Splits(size: nat, total: nat) { size >= total + MIN_BLOCK }

  function KeptSize(size: nat, total: nat): nat { if Splits(size, total) then total else size }

  ghost function AfterMalloc(s: Shape, b: nat, size: nat, total: nat): Shape {
    var taken := s.(free := s.free - {b});
    if Splits(size, total) then Inserted(WithRest(taken, b, total), b + total) else taken
  }

  ghost function WithRest(s: Shape, b: nat, size: nat): Shape {
    s.(blocks := s.blocks + {b + size})
  }

  /** The unjournaled half of malloc leaves b allocated, with `total` units if it was split. */
  ghost predicate CarvedFacts(a: seq<Line>, c: seq<Line>, b: nat, total: nat)
    requires b < |a| && b < |c|
  {
    var hi := b + a[b].size;
    && c[b] == a[b].(size := KeptSize(a[b].size, total), free := false)
    && (Splits(a[b].size, total) ==>
          && b + total < |c|
          && c[b + total].free && !c[b + total].prevFree && c[b + total].size == a[b].size - total
          && (hi < |c| ==> c[hi].prevFree))
    && (!Splits(a[b].size, total) && hi < |a| && hi < |c| ==> c[hi].prevFree == a[hi].prevFree)
  }

  lemma MarkSound(h: Heap, s: Shape, b: nat, free: bool)
    requires Sound(h, s, NOBODY) && b in s.blocks
    ensures var g := Put(h, b, Get(h, b).(free := free));
            && Sound(g, s, NOBODY) && g == h.(mem := g.mem) && b < |h.mem|
            && g.mem == h.mem[b := h.mem[b].(free := free)]
  {
    FrameSound(h, Put(h, b, Get(h, b).(free := free)), s, NOBODY);
  }

  lemma CarveLocal(a: seq<Line>, c: seq<Line>, blocks: set<nat>, b: nat, size: nat)
    requires Tiled(a, blocks) && b in blocks
    requires 0 < size && size + MIN_BLOCK <= a[b].size && CarveEffect(a, c, b, size)
    ensures Local(a, c, blocks, b, b + a[b].size)
  {
    assert Follows(a, blocks, b);
  }

  lemma SplitSound(h: Heap, s: Shape, b: nat, size: nat)
    requires b < |h.mem| && Sound(h, s, b + h.mem[b].size) && b in s.blocks && b !in s.free
    requires MIN_BLOCK <= size && size + MIN_BLOCK <= h.mem[b].size
    ensures b + size !in s.blocks
    ensures var r := Split(h, b, size);
            && Sound(r, Inserted(WithRest(s, b, size), b + size), NOBODY)
            && r.used == h.used && r.log == h.log
            && Local(h.mem, r.mem, s.blocks, b, b + h.mem[b].size)
            && SplitFacts(h.mem, r.mem, b, size)
  {
    hide Carve, InsertFree, Class, Sound, Tiled, Local, SplitFacts, OnlyLinks, CarveEffect;
    SoundFacts(h, s, b + h.mem[b].size, b);
    AloneInside(h, s, b + h.mem[b].size, b);
    CarveSound(h, s, b, size);
    var c := Carve(h, b, size);
    var rest: nat := b + size;
    assert AddUnits(b, size) == rest && Get(c, rest).size == c.mem[rest].size;
    CarveLocal(h.mem, c.mem, s.blocks, b, size);
    var r := InsertFree(c, rest, Class(c.mem[rest].size));
    InsertSound(c, WithRest(s, b, size), NOBODY, rest);
    SplitLocal(h.mem, c.mem, r.mem, s, b, size);
  }

  lemma SplitLocal(a: seq<Line>, c: seq<Line>, r: seq<Line>, s: Shape, b: nat, size: nat)
    requires b < |a| && 0 < size < a[b].size && b + a[b].size <= |a|
    requires CarveEffect(a, c, b, size) && OnlyLinks(c, r, s.free + {b + size})
    requires b !in s.free && s.free <= s.blocks
    requires forall u :: u in s.blocks && b <= u < b + a[b].size ==> u == b
    requires Local(a, c, s.blocks, b, b + a[b].size)
    ensures Local(a, r, s.blocks, b, b + a[b].size) && SplitFacts(a, r, b, size)
  {
    LinksLocal(c, r, s.free + {b + size}, s.blocks, b, b + a[b].size);
    LocalTrans(a, c, r, s.blocks, b, b + a[b].size);
    hide Local;
  }

  ghost predicate SplitFacts(a: seq<Line>, c: seq<Line>, b: nat, size: nat)
  {
    && |a| == |c| && b < |a| && b + size < |a|
    && c[b] == a[b].(size := size)
    && c[b + size].free && !c[b + size].prevFree && c[b + size].size + size == a[b].size
    && (b + a[b].size < |a| ==> c[b + a[b].size].prevFree)
    && (forall u :: b < u < b + size ==> c[u] == a[u])
  }

  lemma CarvedSound(h: Heap, s: Shape, b: nat, total: nat)
    requires Sound(h, s, NOBODY) && b in s.free && b < |h.mem|
    requires MIN_BLOCK <= total <= h.mem[b].size
    ensures var c := Carved(h, b, total);
            && Sound(c, AfterMalloc(s, b, h.mem[b].size, total), NOBODY)
            && c.used == h.used && c.log == h.log
            && Local(h.mem, c.mem, s.blocks, b, b + h.mem[b].size)
            && CarvedFacts(h.mem, c.mem, b, total)
            && (Splits(h.mem[b].size, total) ==> b + total !in s.blocks)
  {
    hide RemoveFree, Split, Class, Sound, Tiled, Local, OnlyLinks, SplitFacts, CarvedFacts;
    FreeIsBlock(h, s, NOBODY, b);
    SoundFacts(h, s, NOBODY, b);
    var size := h.mem[b].size;
    var h1 := RemoveFree(h, b, Class(size));
    var s1 := s.(free := s.free - {b});
    RemoveSound(h, s, NOBODY, b);
    LinksFacts(h.mem, h1.mem, s.free - {b}, b);
    LinksLocal(h.mem, h1.mem, s.free - {b}, s.blocks, b, b + size);
    var h2, s2 := h1, s1;
    if Splits(size, total) {
      SoundBut(h1, s1, b + size);
      SplitSound(h1, s1, b, total);
      h2, s2 := Split(h1, b, total), AfterMalloc(s, b, size, total);
      LocalTrans(h.mem, h1.mem, h2.mem, s.blocks, b, b + size);
    }
    SoundFacts(h2, s2, NOBODY, b);
    MarkSound(h2, s2, b, false);
    var c := MarkAllocated(h2, b);
    InsideLocal(h2.mem, c.mem, s.blocks, b, b + size, b);
    LocalTrans(h.mem, h2.mem, c.mem, s.blocks, b, b + size);
    CarvedFrom(h.mem, h1.mem, h2.mem, c.mem, s.free - {b}, b, total);
  }

  lemma LinksFacts(a: seq<Line>, c: seq<Line>, f: set<nat>, b: nat)
    requires OnlyLinks(a, c, f) && b !in f && b < |a|
    ensures |c| == |a| && c[b] == a[b]
  {
  }

  lemma CarvedFrom(a: seq<Line>, h1: seq<Line>, h2: seq<Line>, c: seq<Line>, f: set<nat>, b: nat, total: nat)
    requires OnlyLinks(a, h1, f) && b !in f && b < |a| && 0 < total <= a[b].size
    requires if Splits(a[b].size, total) then SplitFacts(h1, h2, b, total) else h2 == h1
    requires |c| == |a| == |h2| && c == h2[b := h2[b].(free := false)]
    ensures CarvedFacts(a, c, b, total)
  {
  }

  /** The journaled half writes the header of b, the flags of its right neighbour and used_bytes. */
  ghost predicate ClaimEffect(a: seq<Line>, c: seq<Line>, b: nat, split: bool, uid: nat, dtype: nat) {
    && |c| == |a| && b < |a|
    && c[b] == a[b].(sig := MAGIC48, dc := false, dtype := dtype % 0x8000, uid := NO_OWNERS[0 := uid])
    && (forall u :: 0 <= u < |a| && u != b && u != b + a[b].size ==> c[u] == a[u])
    && (b + a[b].size < |a| ==>
          c[b + a[b].size] ==
            if split then a[b + a[b].size].(prevFree := true, prevSize := a[b].size)
            else a[b + a[b].size].(prevFree := false))
  }

  /** What the type word, the owner and used_bytes steps write. */
  lemma StampWrites(h: Heap, b: nat, uid: nat, dtype: nat)
    requires |h.log| <= 2 && b < |h.mem| && 0 < h.mem[b].size
    ensures var r := Stamp(h, b, uid, dtype);
            && r.Go? && |r.h.log| <= |h.log| + 3
            && r.h == h.(mem := r.h.mem, used := h.used + 64 * (h.mem[b].size - 1), log := r.h.log)
            && r.h.mem ==
                 h.mem[b := h.mem[b].(sig := MAGIC48, dc := false, dtype := dtype % 0x8000, uid := NO_OWNERS[0 := uid])]
  {
    hide Recover, Read;
  }

  lemma NextWrites(h: Heap, next: nat, size: nat, split: bool)
    requires h.log == [] && next < |h.mem|
    ensures var r := ClaimNext(h, next, size, split);
            && r.Go? && |r.h.log| <= 2 && r.h == h.(mem := r.h.mem, log := r.h.log)
            && r.h.mem == h.mem[next := if split then h.mem[next].(prevFree := true, prevSize := size)
                                        else h.mem[next].(prevFree := false)]
  {
    hide Recover, Read;
  }

  lemma ClaimWrites(h: Heap, b: nat, split: bool, uid: nat, dtype: nat)
    requires h.log == [] && b < |h.mem| < MAX_UNITS
    requires 0 < h.mem[b].size && b + h.mem[b].size <= |h.mem|
    ensures var r := Claim(h, b, split, uid, dtype);
            && r.Go?
            && r.h == h.(mem := r.h.mem, used := r.h.used, log := r.h.log)
            && r.h.used == h.used + 64 * (h.mem[b].size - 1)
            && |r.h.log| <= 5
            && ClaimEffect(h.mem, r.h.mem, b, split, uid, dtype)
  {
    hide Stamp, ClaimNext, Recover;
    var next := NextOf(h, b);
    if next < |h.mem| { NextWrites(h, next, h.mem[b].size, split); }
    var h1 := if next < |h.mem| then ClaimNext(h, next, h.mem[b].size, split).h else h;
    StampWrites(h1, b, uid, dtype);
  }

  ghost function Claimed(h: Heap, b: nat, total: nat, uid: nat, dtype: nat): Txn
    requires b < |h.mem|
  {
    Claim(Carved(h, b, total), b, SubUnits(h.mem[b].size, total) >= MIN_BLOCK, uid, dtype)
  }

  /** The header of a freshly allocated block and of the free rest behind it. */
  ghost predicate MallocFacts(a: seq<Line>, c: seq<Line>, b: nat, total: nat, uid: nat, dtype: nat)
    requires b < |a|
  {
    var size := a[b].size;
    && |c| == |a|
    && !c[b].free && c[b].size == KeptSize(size, total) && c[b].prevFree == a[b].prevFree
    && c[b].uid == NO_OWNERS[0 := uid] && c[b].dtype == dtype % 0x8000 && !c[b].dc
    && (Splits(size, total) ==>
          && b + total < |c| && c[b + total].free && c[b + total].size + total == size
          && (b + size < |c| ==> c[b + size].prevFree))
    && (b + c[b].size < |c| && !Splits(size, total) ==> !c[b + c[b].size].prevFree)
  }

  lemma ClaimSound(c: Heap, r: Heap, t: Shape, b: nat, split: bool, uid: nat, dtype: nat)
    requires Sound(c, t, NOBODY) && b in t.blocks
    requires r == c.(mem := r.mem, used := r.used, log := r.log)
    requires ClaimEffect(c.mem, r.mem, b, split, uid, dtype)
    ensures Sound(r, t, NOBODY)
  {
    hide Lists, Bits;
    var n := b + c.mem[b].size;
    SoundBut(c, t, n);
    FrameSound(c, r, t, n);
  }

  lemma ClaimLocal(h: Heap, c: seq<Line>, r: seq<Line>, s: Shape, b: nat, total: nat, uid: nat, dtype: nat)
    requires Sound(h, s, NOBODY) && b in s.blocks && 0 < total <= h.mem[b].size && |c| == |h.mem|
    requires CarvedFacts(h.mem, c, b, total)
    requires ClaimEffect(c, r, b, Splits(h.mem[b].size, total), uid, dtype)
    ensures Local(c, r, s.blocks, b, b + h.mem[b].size)
    ensures MallocFacts(h.mem, r, b, total, uid, dtype)
  {
    hide Lists, Bits;
    assert Follows(h.mem, s.blocks, b);
  }

  lemma CarvedHeader(a: seq<Line>, c: seq<Line>, s: Shape, b: nat, total: nat)
    requires b < |a| && b < |c| && CarvedFacts(a, c, b, total) && b in s.blocks
    ensures c[b].size == KeptSize(a[b].size, total)
    ensures b in AfterMalloc(s, b, a[b].size, total).blocks
  {
  }

  lemma ClaimedSound(h: Heap, s: Shape, b: nat, total: nat, uid: nat, dtype: nat)
    requires Sound(h, s, NOBODY) && h.log == [] && b in s.free && b < |h.mem|
    requires MIN_BLOCK <= total <= h.mem[b].size
    ensures var r := Claimed(h, b, total, uid, dtype);
            && r.Go? && |r.h.log| <= 5
            && Sound(r.h, AfterMalloc(s, b, h.mem[b].size, total), NOBODY)
            && r.h.used == h.used + 64 * (KeptSize(h.mem[b].size, total) - 1)
            && Local(h.mem, r.h.mem, s.blocks, b, b + h.mem[b].size)
            && MallocFacts(h.mem, r.h.mem, b, total, uid, dtype)
  {
    hide Carved, Claim, Sound, Tiled, Local, OnlyLinks, CarvedFacts, ClaimEffect, MallocFacts;
    FreeIsBlock(h, s, NOBODY, b);
    SoundFacts(h, s, NOBODY, b);
    var size := h.mem[b].size;
    var c := Carved(h, b, total);
    var t := AfterMalloc(s, b, size, total);
    CarvedSound(h, s, b, total);
    LocalSize(h.mem, c.mem, s.blocks, b, b + size);
    CarvedHeader(h.mem, c.mem, s, b, total);
    SoundFacts(c, t, NOBODY, b);
    var split := Splits(size, total);
    ClaimWrites(c, b, split, uid, dtype);
    var r := Claim(c, b, split, uid, dtype).h;
    ClaimSound(c, r, t, b, split, uid, dtype);
    ClaimLocal(h, c.mem, r.mem, s, b, total, uid, dtype);
    LocalTrans(h.mem, c.mem, r.mem, s.blocks, b, b + size);
  }

  lemma MallocClients(h: Heap, r: seq<Line>, s: Shape, b: nat, total: nat, uid: nat, dtype: nat)
    requires Sound(h, s, NOBODY) && Clients(h.mem, s) && b in s.free
    requires 0 < total <= h.mem[b].size && uid != 0
    requires InRange(r, AfterMalloc(s, b, h.mem[b].size, total).blocks)
    requires Local(h.mem, r, s.blocks, b, b + h.mem[b].size)
    requires MallocFacts(h.mem, r, b, total, uid, dtype)
    ensures Clients(r, AfterMalloc(s, b, h.mem[b].size, total))
  {
    hide Lists, Bits;
    var t := AfterMalloc(s, b, h.mem[b].size, total);
    SingleOwner(uid);
    forall c | c in t.blocks && b <= c < b + h.mem[b].size ensures ClientOk(r, t.free, c) {
      assert c in s.blocks ==> c == b;
    }
    ClientOutside(h.mem, r, s, t, b, b + h.mem[b].size);
  }

  lemma SingleOwner(uid: nat)
    requires uid != 0
    ensures OwnerSet(NO_OWNERS[0 := uid]) == {uid}
  {
    assert NO_OWNERS[0 := uid][0] == uid;
  }

  lemma MallocLive(h: Heap, r: seq<Line>, s: Shape, b: nat, total: nat, uid: nat, dtype: nat)
    requires Sound(h, s, NOBODY) && Clients(h.mem, s) && b in s.free
    requires 0 < total <= h.mem[b].size && uid != 0
    requires InRange(h.mem, s.blocks) && InRange(r, AfterMalloc(s, b, h.mem[b].size, total).blocks)
    requires Local(h.mem, r, s.blocks, b, b + h.mem[b].size)
    requires MallocFacts(h.mem, r, b, total, uid, dtype)
    ensures var now := Live(r, AfterMalloc(s, b, h.mem[b].size, total).blocks);
            && b !in Live(h.mem, s.blocks)
            && now == Live(h.mem, s.blocks)[b := Entry(KeptSize(h.mem[b].size, total), {uid}, dtype % 0x8000, false)]
  {
    hide Sound, Tiled, Local, Outside, Owned;
    FreeIsBlock(h, s, NOBODY, b);
    AloneInside(h, s, NOBODY, b);
    SingleOwner(uid);
    assert ClientOk(h.mem, s.free, b);
    var t := AfterMalloc(s, b, h.mem[b].size, total);
    LiveOutside(h.mem, r, s.blocks, t.blocks, b, b + h.mem[b].size);
    OnlyEntry(Live(h.mem, s.blocks), Live(r, t.blocks), b, b + h.mem[b].size, b);
  }

  /** malloc keeps either rule: it only takes free units away, and the rest is announced. */
  lemma MallocRules(h: Heap, r: seq<Line>, s: Shape, b: nat, total: nat, uid: nat, dtype: nat)
    requires Sound(h, s, NOBODY) && Clients(h.mem, s) && b in s.free
    requires 0 < total <= h.mem[b].size
    requires Local(h.mem, r, s.blocks, b, b + h.mem[b].size)
    requires MallocFacts(h.mem, r, b, total, uid, dtype)
    ensures RulesKept(h.mem, r, s.blocks, AfterMalloc(s, b, h.mem[b].size, total).blocks)
  {
    FreeIsBlock(h, s, NOBODY, b);
    SoundRange(h, s, NOBODY);
    hide Sound, Clients, Ruled, MallocFacts;
    forall rule | Ruled(h.mem, s.blocks, rule)
      ensures Ruled(r, AfterMalloc(s, b, h.mem[b].size, total).blocks, rule)
    {
      MallocRule(h, r, s, b, total, uid, dtype, rule);
    }
  }

  lemma MallocRule(h: Heap, r: seq<Line>, s: Shape, b: nat, total: nat, uid: nat, dtype: nat, rule: Rule)
    requires Sound(h, s, NOBODY) && Clients(h.mem, s) && b in s.free
    requires 0 < total <= h.mem[b].size
    requires Local(h.mem, r, s.blocks, b, b + h.mem[b].size)
    requires MallocFacts(h.mem, r, b, total, uid, dtype)
    requires Ruled(h.mem, s.blocks, rule)
    ensures Ruled(r, AfterMalloc(s, b, h.mem[b].size, total).blocks, rule)
  {
    hide Sound, Clients, MallocFacts, Local, Obeys;
    FreeIsBlock(h, s, NOBODY, b);
    SoundRange(h, s, NOBODY);
    var t := AfterMalloc(s, b, h.mem[b].size, total);
    MallocRegion(h, r, s, b, total, uid, dtype, rule);
    forall c | c in t.blocks ensures c < |r| && Obeys(r, c, rule) {
      if c in s.blocks && c != b { MallocElsewhere(h, r, s, b, total, uid, dtype, rule, c); }
    }
  }

  lemma MallocRegion(h: Heap, r: seq<Line>, s: Shape, b: nat, total: nat, uid: nat, dtype: nat, rule: Rule)
    requires Sound(h, s, NOBODY) && Clients(h.mem, s) && b in s.free
    requires 0 < total <= h.mem[b].size
    requires Local(h.mem, r, s.blocks, b, b + h.mem[b].size)
    requires MallocFacts(h.mem, r, b, total, uid, dtype)
    requires Ruled(h.mem, s.blocks, rule)
    ensures b < |r| && Obeys(r, b, rule)
    ensures Splits(h.mem[b].size, total) ==> b + total < |r| && Obeys(r, b + total, rule)
  {
    hide Lists, Bits, PrevSizes, Owned, Chained, Apart;
    assert ClientOk(h.mem, s.free, b);
    assert Obeys(h.mem, b, rule);
  }

  lemma MallocElsewhere(h: Heap, r: seq<Line>, s: Shape, b: nat, total: nat, uid: nat, dtype: nat, rule: Rule, c: nat)
    requires Sound(h, s, NOBODY) && Clients(h.mem, s) && b in s.free
    requires 0 < total <= h.mem[b].size
    requires Local(h.mem, r, s.blocks, b, b + h.mem[b].size)
    requires MallocFacts(h.mem, r, b, total, uid, dtype)
    requires Ruled(h.mem, s.blocks, rule) && c in s.blocks && c != b
    ensures c < |r| && Obeys(r, c, rule)
  {
    hide Lists, Bits, PrevSizes, Clients;
    assert Obeys(h.mem, c, rule) && Follows(h.mem, s.blocks, c);
  }

  lemma FindIsFree(h: Heap, s: Shape, but: nat, total: nat)
    requires Sound(h, s, but) && FindFor(h, total).At?
    ensures FindFor(h, total).u in s.free
  {
    hide Class, Tiled, PrevSizes, Linked, Bits, LeastBit;
  }

  /** Every part of the invariant after a successful tlsf_malloc_internal. */
  lemma MallocWf(h: Heap, s: Shape, b: nat, total: nat, uid: nat, dtype: nat)
    requires Wf(h, s) && b in s.free && b < |h.mem|
    requires MIN_BLOCK <= total <= h.mem[b].size && uid != 0
    requires InRange(h.mem, s.blocks)
    ensures var r := Claimed(h, b, total, uid, dtype); var t := AfterMalloc(s, b, h.mem[b].size, total);
            && r.Go? && |r.h.log| <= 5
            && Core(r.h, t)
            && RulesKept(h.mem, r.h.mem, s.blocks, t.blocks)
            && InRange(r.h.mem, t.blocks)
            && PayloadKept(h.mem, r.h.mem, Live(h.mem, s.blocks))
            && b !in Live(h.mem, s.blocks)
            && Live(r.h.mem, t.blocks)
               == Live(h.mem, s.blocks)[b := Entry(KeptSize(h.mem[b].size, total), {uid}, dtype % 0x8000, false)]
  {
    hide Claim, Carved, Sound, Tiled, Local, Clients, Live, Owned, Outside, MallocFacts, Total, RulesKept, PayloadKept;
    FreeIsBlock(h, s, NOBODY, b);
    SoundFacts(h, s, NOBODY, b);
    ClaimedSound(h, s, b, total, uid, dtype);
    var r := Claimed(h, b, total, uid, dtype).h;
    var t := AfterMalloc(s, b, h.mem[b].size, total);
    SoundRange(r, t, NOBODY);
    MallocClients(h, r.mem, s, b, total, uid, dtype);
    MallocLive(h, r.mem, s, b, total, uid, dtype);
    TotalInsert(Live(h.mem, s.blocks), b, Entry(KeptSize(h.mem[b].size, total), {uid}, dtype % 0x8000, false));
    MallocPayload(h, r.mem, s, b);
    MallocRules(h, r.mem, s, b, total, uid, dtype);
  }

  lemma MallocPayload(h: Heap, r: seq<Line>, s: Shape, b: nat)
    requires Sound(h, s, NOBODY) && Clients(h.mem, s) && b in s.free && b < |h.mem|
    requires InRange(h.mem, s.blocks)
    requires Local(h.mem, r, s.blocks, b, b + h.mem[b].size)
    ensures PayloadKept(h.mem, r, Live(h.mem, s.blocks))
  {
    hide Lists, Bits, PrevSizes, Owned, Local, PayloadKept;
    var hi := b + h.mem[b].size;
    assert ClientOk(h.mem, s.free, b);
    AloneInside(h, s, NOBODY, b);
    assert Follows(h.mem, s.blocks, b);
    PayloadLocal(h, r, s, NOBODY, b, hi);
    assert Outside(Live(h.mem, s.blocks), b, hi) == Live(h.mem, s.blocks);
  }
}
