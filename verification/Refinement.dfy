/** tlsf_malloc and tlsf_realloc as updates of the client's map. */
module Refinement {
  import opened Mapping
  import opened Heap
  import opened FreeLists
  import opened Invariant
  import opened Abstraction
  import opened OwnerSlots
  import opened MallocProof
  import opened FreeProof
  import opened ReallocProof
  import opened Search
  import opened Outcomes
  import opened Ownership

  /** The map gains a block of `total` or `total + 1` units owned by uid alone. */
  ghost predicate Gains(m: map<nat, Entry>, n: map<nat, Entry>, b: nat, total: nat, uid: nat, dtype: nat) {
    && b !in m && b in n
    && total <= n[b].size <= total + 1
    && n == m[b := Entry(n[b].size, {uid}, dtype % 0x8000, false)]
  }

  lemma MallocRefines(h: Heap, s: Shape, size: nat, uid: nat, dtype: nat)
    requires Wf(h, s) && InRange(h.mem, s.blocks) && uid != 0 && size > 0 && Fits(h, size)
    ensures var a := Malloc(h, size, uid, dtype); var m := Live(h.mem, s.blocks);
            && (a.ptr.Null? <==> FindFor(h, BlockUnits(size)).Null?)
            && (a.ptr.Null? ==>
                  && a == Alloc(h, Null, OutOfMemory)
                  && forall b :: b in s.free ==> b < |h.mem| && h.mem[b].size < BlockUnits(size))
            && (a.ptr.At? ==>
                  && a.err == Ok && a.ptr.u > 0
                  && exists t, n ::
                       && Updates(h, a.h, s, t, n, {})
                       && Gains(m, n, a.ptr.u - 1, BlockUnits(size), uid, dtype))
  {
    hide Core, FindFor, Claimed, BlockUnits, AfterMalloc, MallocInternal, PayloadKept, RulesBroken, Live, Updates;
    MallocPaths(h, s, size, uid, dtype);
    UnitsPositive(size);
    var total := BlockUnits(size);
    if FindFor(h, total).Null? {
      NothingFits(h, s, total);
    } else {
      FoundIsFree(h, s, total);
      var b := FindFor(h, total).u;
      MallocWf(h, s, b, total, uid, dtype);
      var r, t := Claimed(h, b, total, uid, dtype).h, AfterMalloc(s, b, h.mem[b].size, total);
      CoreCommit(r, t);
      var n := Live(r.mem, t.blocks);
      UpdatesBy(h, Commit(r), s, t, n, Live(h.mem, s.blocks), {});
      assert Gains(Live(h.mem, s.blocks), n, b, total, uid, dtype);
      assert Malloc(h, size, uid, dtype) == Alloc(Commit(r), At(b + 1), Ok);
    }
  }

  lemma NothingFits(h: Heap, s: Shape, total: nat)
    requires Core(h, s) && MIN_BLOCK <= total && FindFor(h, total).Null?
    ensures forall b :: b in s.free ==> b < |h.mem| && h.mem[b].size < total
  {
    hide FindFor, Class, Clients, Total;
    CoreSound(h, s);
    if 64 * total < SPAN {
      SearchSpec(h, s, total);
    } else {
      forall b | b in s.free ensures b < |h.mem| && h.mem[b].size < total {
        FreeSize(h, s, b);
      }
    }
  }

  // ---------------------------------------------------------------- realloc

  function ReallocErr(m: map<nat, Entry>, b: nat, uid: nat): Err {
    if uid == 0 then UidInvalid
    else if b !in m then NotAllocated
    else if uid !in m[b].owners then UidNotFound
    else if |m[b].owners| > 1 then TooManyOwners
    else Ok
  }

  lemma ReallocRefused(h: Heap, s: Shape, b: nat, size: nat, uid: nat)
    requires Wf(h, s) && InRange(h.mem, s.blocks) && b in s.blocks
    requires ReallocErr(Live(h.mem, s.blocks), b, uid) != Ok
    ensures Realloc(h, b, size, uid) == Alloc(h, Null, ReallocErr(Live(h.mem, s.blocks), b, uid))
  {
    hide Core, Owned, UidFind, Live, CheckBlock, OwnerSet, UidCount, TryInPlace, Move;
    LiveOwned(h, s, b);
    if uid != 0 && !h.mem[b].free {
      IsLive(h, s, b);
      FindIsMember(h.mem[b].uid, uid);
      CountIsSize(h.mem[b].uid);
    }
  }

  lemma ReallocAccepted(h: Heap, s: Shape, b: nat, size: nat, uid: nat)
    requires Wf(h, s) && InRange(h.mem, s.blocks) && b in s.blocks
    requires ReallocErr(Live(h.mem, s.blocks), b, uid) == Ok
    ensures !h.mem[b].free && uid != 0 && OwnerSet(h.mem[b].uid) == {uid}
    ensures Realloc(h, b, size, uid) == match TryInPlace(h, b, BlockUnits(size))
                                        case Yes(r) => Alloc(Commit(r), At(b + 1), Ok)
                                        case Overflowed(r) => Alloc(r, Null, BulOverflow)
                                        case No => Move(h, b, size, uid)
  {
    hide Core, Owned, UidFind, Live, CheckBlock, OwnerSet, UidCount, TryInPlace, Move, BlockUnits;
    LiveOwned(h, s, b);
    IsLive(h, s, b);
    FindIsMember(h.mem[b].uid, uid);
    CountIsSize(h.mem[b].uid);
    OneOwner(OwnerSet(h.mem[b].uid), uid);
  }

  lemma OneOwner(s: set<nat>, x: nat)
    requires x in s && |s| <= 1
    ensures s == {x}
  {
    var rest := s - {x};
    assert s == rest + {x};
    assert |s| == |rest| + 1;
  }

  /** The in-place cut that leaves a free rest in front of a free block. */
  ghost predicate CutsBesideFree(h: Heap, b: nat, needed: nat)
    requires b < |h.mem|
  {
    var cur := h.mem[b].size;
    Splits(cur, needed) && b + cur < |h.mem| && h.mem[b + cur].free
  }

  ghost function BrokenInPlace(h: Heap, b: nat, needed: nat): set<Rule>
    requires b < |h.mem|
  {
    if CutsBesideFree(h, b, needed) then {Separated} else {}
  }

  ghost predicate Resizes(m: map<nat, Entry>, n: map<nat, Entry>, b: nat, total: nat) {
    b in m && b in n && total <= n[b].size <= total + 1 && n == m[b := m[b].(size := n[b].size)]
  }

  /** realloc in place: same pointer, new size, the common payload stays where it is. */
  lemma ReallocStays(h: Heap, s: Shape, b: nat, size: nat, uid: nat)
    requires Wf(h, s) && InRange(h.mem, s.blocks) && b in s.blocks && b < |h.mem|
    requires ReallocErr(Live(h.mem, s.blocks), b, uid) == Ok
    requires FitsInPlace(h, b, BlockUnits(size))
    ensures var a := Realloc(h, b, size, uid); var m := Live(h.mem, s.blocks);
            && a.ptr == At(b + 1) && a.err == Ok
            && exists t, n ::
                 && Updates(h, a.h, s, t, n, BrokenInPlace(h, b, BlockUnits(size)))
                 && Resizes(m, n, b, BlockUnits(size))
  {
    hide Core, TryInPlace, Realloc, BlockUnits, AfterInPlace, PayloadKept, RulesBroken, RulesKept, Live, Updates,
      ReallocErr, EntryOf;
    ReallocAccepted(h, s, b, size, uid);
    UnitsPositive(size);
    var total := BlockUnits(size);
    InPlaceCorrect(h, s, b, total);
    var r, t := TryInPlace(h, b, total).h, AfterInPlace(h, s, b, total);
    IsLive(h, s, b);
    CoreCommit(r, t);
    InPlaceRules(h, s, b, total);
    ListedIsFree(h, s, b);
    var n := Live(r.mem, t.blocks);
    var kept := Live(h.mem, s.blocks)[b := EntryOf(h.mem[b]).(size := Min(n[b].size, h.mem[b].size))];
    UpdatesBy(h, Commit(r), s, t, n, kept, BrokenInPlace(h, b, total));
    assert Resizes(Live(h.mem, s.blocks), n, b, total);
  }

  lemma InPlaceRules(h: Heap, s: Shape, b: nat, needed: nat)
    requires Wf(h, s) && InRange(h.mem, s.blocks) && b in s.blocks && b < |h.mem| && !h.mem[b].free
    requires MIN_BLOCK <= needed && FitsInPlace(h, b, needed)
    ensures TryInPlace(h, b, needed).Yes?
    ensures RulesBroken(h.mem, TryInPlace(h, b, needed).h.mem, s.blocks, AfterInPlace(h, s, b, needed).blocks,
                        BrokenInPlace(h, b, needed))
  {
    hide Core, Shrink, Expand, Ruled, AfterExpand, AfterSplit;
    InPlaceCorrect(h, s, b, needed);
    ListedIsFree(h, s, b);
    if needed > h.mem[b].size {
      ExpandRules(h, s, b, needed);
    } else if Splits(h.mem[b].size, needed) {
      ShrinkRules(h, s, b, needed);
    } else {
      ShrinkNothing(h, b, needed);
    }
  }

  /** The block at b has become the block `to`, with the type word cut to 15 bits. */
  ghost predicate Rehouses(m: map<nat, Entry>, n: map<nat, Entry>, b: nat, to: nat, total: nat) {
    && b in m && to !in m && to in n
    && total <= n[to].size <= total + 1
    && n == m[to := Entry(n[to].size, m[b].owners, m[b].dtype % 0x8000, false)] - {b}
  }

  /** The heap in which a moving realloc gives the old block back: the new one is claimed and filled. */
  ghost function Staged(h: Heap, b: nat, size: nat, uid: nat): Heap
    requires b < |h.mem| && 0 < h.mem[b].size
  {
    var a := MallocInternal(h, size, uid, h.mem[b].dtype);
    if a.ptr.Null? then h else Copy(a.h, b + 1, a.ptr.u, Min(h.mem[b].size, BlockUnits(size)) - 1)
  }

  /** realloc by malloc, copy and free: refused without effect, or a new block with the old payload. */
  lemma ReallocMoves(h: Heap, s: Shape, b: nat, size: nat, uid: nat)
    requires Wf(h, s) && InRange(h.mem, s.blocks) && b in s.blocks && b < |h.mem| && size > 0
    requires ReallocErr(Live(h.mem, s.blocks), b, uid) == Ok
    requires !FitsInPlace(h, b, BlockUnits(size)) && Fits(h, size)
    ensures var a := Realloc(h, b, size, uid); var m := Live(h.mem, s.blocks);
            && (a.ptr.Null? <==> FindFor(h, BlockUnits(size)).Null?)
            && (a.ptr.Null? ==>
                  && a == Alloc(h, Null, OutOfMemory)
                  && forall c :: c in s.free ==> c < |h.mem| && h.mem[c].size < BlockUnits(size))
            && (a.ptr.At? ==>
                  && a.err == Ok && a.ptr.u > 0
                  && 0 < h.mem[b].size && |Staged(h, b, size, uid).mem| == |h.mem|
                  && exists t, n, mid: Shape ::
                       && Core(Staged(h, b, size, uid), mid)
                       && RulesKept(h.mem, Staged(h, b, size, uid).mem, s.blocks, mid.blocks)
                       && Updates(h, a.h, s, t, n, BrokenBy(Staged(h, b, size, uid), mid.blocks, b))
                       && Rehouses(m, n, b, a.ptr.u - 1, BlockUnits(size))
                       && Moved(h.mem, a.h.mem, b, a.ptr.u - 1, Min(h.mem[b].size, BlockUnits(size))))
  {
    hide Core, FindFor, Claimed, BlockUnits, MallocInternal, PayloadKept, RulesBroken, Live, Updates, TryInPlace,
      Realloc, FreeInternal, Copy, Moved, ReallocErr, FitsInPlace, OwnerSet, BrokenBy, AfterMalloc;
    ReallocAccepted(h, s, b, size, uid);
    UnitsPositive(size);
    var total := BlockUnits(size);
    InPlaceCorrect(h, s, b, total);
    MallocPaths(h, s, size, uid, h.mem[b].dtype);
    if FindFor(h, total).Null? {
      NothingFits(h, s, total);
    } else {
      FoundIsFree(h, s, total);
      var to := FindFor(h, total).u;
      var t := MoveCorrect(h, s, b, to, total, uid);
      var a := MallocInternal(h, size, uid, h.mem[b].dtype);
      SoundSize(h, s, b);
      var g := Staged(h, b, size, uid);
      var mid := AfterMalloc(s, to, h.mem[to].size, total);
      var d := FreeInternal(g, b, uid).h;
      IsLive(h, s, b);
      CoreCommit(d, t);
      var m, n := Live(h.mem, s.blocks), Live(d.mem, t.blocks);
      UpdatesBy(h, Commit(d), s, t, n, m - {b}, BrokenBy(g, mid.blocks, b));
      assert Core(g, mid) && RulesKept(h.mem, g.mem, s.blocks, mid.blocks)
        && Updates(h, Commit(d), s, t, n, BrokenBy(g, mid.blocks, b));
      assert Rehouses(m, n, b, to, total);
      assert Move(h, b, size, uid) == Alloc(Commit(d), At(to + 1), Ok);
    }
  }

  lemma SoundSize(h: Heap, s: Shape, b: nat)
    requires Core(h, s) && b in s.blocks && b < |h.mem|
    ensures h.mem[b].size >= MIN_BLOCK
  {
    hide Lists, Bits, PrevSizes, Clients;
  }
}
