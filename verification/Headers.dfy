/** What single allocator steps do to the block headers, one by one. */
module Headers {
  import opened Mapping
  import opened Heap
  import opened FreeLists
  import opened Abstraction
  import opened Invariant
  import opened OwnerSlots
  import opened MallocProof
  import opened FreeProof
  import opened ReallocProof
  import opened Search
  import opened Outcomes
  import opened Ownership
  import opened Refinement
  import opened Blocks
  import opened Runs

  const UID: nat := 7

  /** A request whose block takes k units, and the pointer-taking steps of the run. */
  function Take(k: nat): Op
    requires k > 0
  {
    DoMalloc(64 * (k - 1), UID, 0)
  }

  /** A header as the run sees it; live blocks belong to UID alone. */
  ghost predicate Head(h: Heap, b: nat, size: nat, free: bool) {
    && b < |h.mem| && h.mem[b].size == size && h.mem[b].free == free
    && (!free ==> OwnerSet(h.mem[b].uid) == {UID})
  }

  /** A header outside the region of a step stays, its flag too unless it lies right behind. */
  lemma HeadStays(h: Heap, r: Heap, heads: set<nat>, lo: nat, hi: nat, b: nat, size: nat, free: bool)
    requires Local(h.mem, r.mem, heads, lo, hi) && !(lo <= b < hi) && Head(h, b, size, free)
    ensures Head(r, b, size, free) && (b != hi ==> r.mem[b].prevFree == h.mem[b].prevFree)
  {
  }

  lemma UnitsOf(k: nat)
    requires 2 <= k <= 64
    ensures BlockUnits(64 * (k - 1)) == k
  {
  }

  lemma WfRange(h: Heap, s: Shape)
    requires Wf(h, s)
    ensures InRange(h.mem, s.blocks) && h.log == [] && Sound(h, s, NOBODY) && FlagsAgree(h.mem, s)
  {
    SoundRange(h, s, NOBODY);
    ClientFlags(h.mem, s);
    hide Sound, Clients;
  }

  lemma TakeStep(h: Heap, s: Shape, k: nat, b: nat, size: nat)
    requires Wf(h, s) && 2 <= k <= size <= 64 && FindFor(h, k) == At(b) && Head(h, b, size, true)
    ensures Legal(h, Take(k))
    ensures var r, t := Apply(h, Take(k)).h, AfterMalloc(s, b, size, k);
            && b in s.free && Wf(r, t) && Local(h.mem, r.mem, s.blocks, b, b + size)
            && Head(r, b, KeptSize(size, k), false) && r.mem[b].prevFree == h.mem[b].prevFree
            && (Splits(size, k) ==> Head(r, b + k, size - k, true))
  {
    hide Wf, FindFor, Claimed, AfterMalloc, BlockUnits, MallocInternal, Local, Live, PayloadKept, RulesKept, Sound,
      Core;
    UnitsOf(k);
    WfCore(h, s);
    FoundIsFree(h, s, k);
    WfRange(h, s);
    MallocPaths(h, s, 64 * (k - 1), UID, 0);
    MallocWf(h, s, b, k, UID, 0);
    ClaimedSound(h, s, b, k, UID, 0);
    CoreCommit(Claimed(h, b, k, UID, 0).h, AfterMalloc(s, b, size, k));
    SingleOwner(UID);
  }

  lemma GiveStep(h: Heap, s: Shape, b: nat, size: nat)
    requires Wf(h, s) && b in s.blocks && Head(h, b, size, false)
    ensures Legal(h, DoFree(b, UID))
    ensures var r := Apply(h, DoFree(b, UID)).h;
            Wf(r, Freed(h, s, b)) && ReleaseFacts(h, r, s, b)
  {
    hide Wf, Sound, Core, Release, Freed, Local, PayloadKept, RulesBroken, Walk, UidFind, UidCount, DropUid, Lo, Hi;
    WfCore(h, s);
    WfRange(h, s);
    WfWalk(h, s);
    IsLive(h, s, b);
    LiveOwned(h, s, b);
    var u := h.mem[b].uid;
    FindIsMember(u, UID);
    DropUidEffect(h, b, UID, 0);
    OccursOnce(u, UID, 0);
    DroppedOwners(u, UID);
    CountIsSize(Dropped(u, UID, 0));
    var g := DropUid(h, b, UID, 0).h;
    FreeCorrect(h, s, b, UID);
    ReleaseFrom(h, g, s, b);
    CoreCommit(Release(g, b).h, Freed(h, s, b));
    CommitSound(Release(g, b).h, Freed(h, s, b));
  }

  lemma CutStep(h: Heap, s: Shape, b: nat, size: nat, k: nat)
    requires Wf(h, s) && b in s.blocks && Head(h, b, size, false) && 2 <= k && Splits(size, k) && size <= 64
    ensures Legal(h, DoRealloc(b, 64 * (k - 1), UID))
    ensures var r := Apply(h, DoRealloc(b, 64 * (k - 1), UID)).h;
            && Wf(r, AfterSplit(s, b, k)) && Local(h.mem, r.mem, s.blocks, b, b + size)
            && Head(r, b, k, false) && Head(r, b + k, size - k, true)
  {
    hide Wf, Sound, Core, Shrink, Local, PayloadKept, RulesBroken, Walk, BlockUnits, SplitFacts, Tiled;
    UnitsOf(k);
    WfCore(h, s);
    WfRange(h, s);
    WfWalk(h, s);
    IsLive(h, s, b);
    InPlaceCorrect(h, s, b, k);
    ReallocAccepted(h, s, b, 64 * (k - 1), UID);
    ShrinkSound(h, s, b, k);
    SplitHeader(h.mem, Shrink(h, b, k).h.mem, b, k);
    CoreCommit(Shrink(h, b, k).h, AfterSplit(s, b, k));
  }

  /** The extent of a release, from the blocks on both sides. */
  lemma Extent(h: Heap, s: Shape, b: nat, x: nat)
    requires Wf(h, s) && b in s.blocks && x in s.blocks && b < |h.mem| && x < |h.mem| && x + h.mem[x].size == b
    ensures Lo(h, b) == if h.mem[b].prevFree && h.mem[x].free then x else b
    ensures MergesBack(h, b) <==> h.mem[b].prevFree && h.mem[x].free
  {
    hide Lists, Bits, Chained, Clients;
    LeftIsOne(h, s, x, b);
    assert PrevRight(h.mem, s.blocks, b);
  }

  /** A heap of 64 units with these headers, some of them free. */
  ghost predicate Stands(h: Heap, s: Shape, blocks: set<nat>, free: set<nat>) {
    Wf(h, s) && s.blocks == blocks && s.free == free && |h.mem| == 64
  }

  /** With one free block, any request that it can hold takes it. */
  lemma OnlyFree(h: Heap, s: Shape, k: nat, b: nat, size: nat)
    requires Wf(h, s) && s.free == {b} && 2 <= k <= size <= 64 && Head(h, b, size, true)
    ensures FindFor(h, k) == At(b)
  {
    hide FindFor, Class, ClassAligned, Sound, Clients;
    WfCore(h, s);
    SearchSpec(h, s, k);
  }

  /** k units were taken from the only free block p, which ended the heap. */
  ghost predicate TakenNext(h: Heap, r: Heap, s: Shape, t: Shape, p: nat, k: nat)
    requires p + k <= 64
  {
    && Stands(r, t, s.blocks + {p + k}, {p + k})
    && Head(r, p, k, false) && Head(r, p + k, 64 - p - k, true)
    && Local(h.mem, r.mem, s.blocks, p, 64)
  }

  lemma TakeNext(h: Heap, s: Shape, p: nat, k: nat) returns (t: Shape)
    requires 2 <= k && p + k + 2 <= 64
    requires Stands(h, s, s.blocks, {p}) && Head(h, p, 64 - p, true)
    ensures Legal(h, Take(k)) && TakenNext(h, Apply(h, Take(k)).h, s, t, p, k)
  {
    hide Wf, FindFor, AfterMalloc, Apply, Legal, Local, Head;
    OnlyFree(h, s, k, p, 64 - p);
    TakeStep(h, s, k, p, 64 - p);
    t := AfterMalloc(s, p, 64 - p, k);
    ShapeAfterTake(s, p, 64 - p, k);
    LocalSize(h.mem, Apply(h, Take(k)).h.mem, s.blocks, p, 64);
  }

  lemma ShapeAfterTake(s: Shape, b: nat, size: nat, k: nat)
    ensures var t := AfterMalloc(s, b, size, k);
            && t.blocks == (if Splits(size, k) then s.blocks + {b + k} else s.blocks)
            && t.free == s.free - {b} + (if Splits(size, k) then {b + k} else {})
  {
  }

  /** Where the merged block starts and ends, with left neighbour x. */
  ghost function Low(h: Heap, x: nat, b: nat): nat
    requires b < |h.mem| && x < |h.mem|
  {
    if h.mem[b].prevFree && h.mem[x].free then x else b
  }

  /** Giving back b with left neighbour x: what it merges with, and what becomes of the flags around it. */
  lemma GiveNext(h: Heap, s: Shape, x: nat, b: nat, n: nat) returns (t: Shape)
    requires Wf(h, s) && x in s.blocks && b in s.blocks && Head(h, b, n, false)
    requires x < |h.mem| && x + h.mem[x].size == b
    ensures Legal(h, DoFree(b, UID))
    ensures var r := Apply(h, DoFree(b, UID)).h;
            && Wf(r, t) && |r.mem| == |h.mem| && Low(h, x, b) < Hi(h, b)
            && Head(r, Low(h, x, b), Hi(h, b) - Low(h, x, b), true)
            && (Hi(h, b) < |h.mem| ==> r.mem[Hi(h, b)].prevFree)
            && (Hi(h, b) != b + n ==> !r.mem[Low(h, x, b)].prevFree)
            && Local(h.mem, r.mem, s.blocks, Low(h, x, b), Hi(h, b))
    ensures t.blocks == s.blocks - (if Low(h, x, b) == x then {b} else {}) - (if Hi(h, b) != b + n then {b + n} else {})
    ensures t.free == s.free - (if Low(h, x, b) == x then {x} else {}) - (if Hi(h, b) != b + n then {b + n} else {})
                      + {Low(h, x, b)}
  {
    hide Wf, Apply, Legal, Local, Sound, MergesBack;
    GiveStep(h, s, b, n);
    Extent(h, s, b, x);
    SizePositive(h, s, x);
    WfEnd(h, s, b);
    t := Freed(h, s, b);
    assert s.blocks - {} == s.blocks && s.free - {} == s.free;
  }

  lemma WfEnd(h: Heap, s: Shape, b: nat)
    requires Wf(h, s) && b in s.blocks && b < |h.mem|
    ensures b + h.mem[b].size < |h.mem| ==> h.mem[b + h.mem[b].size].size > 0
  {
    WfCore(h, s);
    WfEdge(h, s, b);
    hide Core;
    SizePositive(h, s, b + h.mem[b].size);
  }

  lemma SizePositive(h: Heap, s: Shape, e: nat)
    requires Wf(h, s)
    ensures e in s.blocks ==> e < |h.mem| && h.mem[e].size > 0
  {
    hide Lists, Bits, Chained, Clients, PrevSizes;
  }
}
