/** No operation fills the undo log, whatever the heap looks like. */
module LogBounds {
  import opened Mapping
  import opened Heap
  import opened Runs

  lemma ListsKeepLog(h: Heap, b: nat, k: nat)
    requires k < CLASSES
    ensures RemoveFree(h, b, k).log == h.log && InsertFree(h, b, k).log == h.log
    ensures |RemoveFree(h, b, k).mem| == |h.mem| && |InsertFree(h, b, k).mem| == |h.mem|
  {
  }

  lemma SplitKeepsLog(h: Heap, b: nat, size: nat)
    ensures Split(h, b, size).log == h.log && |Split(h, b, size).mem| == |h.mem|
  {
    hide InsertFree, Class;
    var c := Carve(h, b, size);
    ListsKeepLog(c, AddUnits(b, size), Class(Get(c, AddUnits(b, size)).size));
  }

  lemma CarvedKeepsLog(h: Heap, b: nat, total: nat)
    ensures Carved(h, b, total).log == h.log && |Carved(h, b, total).mem| == |h.mem|
  {
    hide RemoveFree, Split, Class;
    var k := Class(Get(h, b).size);
    ListsKeepLog(h, b, k);
    SplitKeepsLog(RemoveFree(h, b, k), b, total);
  }

  lemma MergesKeepLog(h: Heap, b: nat)
    ensures CoalescePrev(h, b).h.log == h.log && CoalesceFree(h, b).log == h.log
  {
    hide RemoveFree, Class;
    if MergesBack(h, b) {
      var p := b - Get(h, b).prevSize;
      ListsKeepLog(h, p, Class(Get(h, p).size));
    }
    ListsKeepLog(h, NextOf(h, b), Class(Get(h, NextOf(h, b)).size));
  }

  lemma CoalescedKeepsLog(h: Heap, b: nat)
    ensures Coalesced(h, b).h.log == h.log
  {
    hide CoalescePrev, CoalesceFree, InsertFree, Class;
    var m := CoalescePrev(h, b);
    MergesKeepLog(h, b);
    MergesKeepLog(m.h, m.b);
    var g := MarkFree(CoalesceFree(m.h, m.b), m.b);
    ListsKeepLog(g, m.b, Class(Get(g, m.b).size));
  }

  lemma {:induction false} DropBound(h: Heap, b: nat, uid: nat, i: nat)
    requires i <= OWNERS && |h.log| + 12 - i < BUL_ENTRIES
    ensures DropUid(h, b, uid, i).Go? && |DropUid(h, b, uid, i).h.log| <= |h.log| + 12 - i
    decreases OWNERS - i
  {
    hide Recover, Read;
    if i < OWNERS {
      if Get(h, b).uid[i] == uid {
        var h1 := Push(h, UidAt(b, i / 4)).h;
        DropBound(Put(h1, b, Get(h1, b).(uid := Get(h1, b).uid[i := 0])), b, uid, i + 1);
      } else {
        DropBound(h, b, uid, i + 1);
      }
    }
  }

  lemma ReleaseBound(h: Heap, b: nat)
    requires |h.log| <= 60
    ensures Release(h, b).Go? && |Release(h, b).h.log| <= |h.log| + 3
  {
    hide Coalesced, Recover, Read;
    var h1 := Push(h, UsedAt).h;
    CoalescedKeepsLog(h1.(used := h1.used - Payload(h1, b)), b);
  }

  lemma FreeBound(h: Heap, b: nat, uid: nat)
    requires |h.log| <= 40
    ensures FreeInternal(h, b, uid).err != BulOverflow
    ensures |FreeInternal(h, b, uid).h.log| <= |h.log| + 15
    ensures FreeInternal(h, b, uid).err != Ok ==> FreeInternal(h, b, uid).h == h
  {
    hide DropUid, Release, UidFind, UidCount;
    DropBound(h, b, uid, 0);
    ReleaseBound(DropUid(h, b, uid, 0).h, b);
  }

  lemma ClaimBound(h: Heap, b: nat, split: bool, uid: nat, dtype: nat)
    requires h.log == []
    ensures Claim(h, b, split, uid, dtype).Go? && |Claim(h, b, split, uid, dtype).h.log| <= 5
    ensures b < |h.mem| ==> LogInPool(Claim(h, b, split, uid, dtype).h)
  {
    hide Recover, Read, Stamp;
    var next := NextOf(h, b);
    var t := if next >= |h.mem| then Go(h) else ClaimNext(h, next, Get(h, b).size, split);
    assert t.Go? && |t.h.log| <= 2 && |t.h.mem| == |h.mem| && LogInPool(t.h);
    StampBound(t.h, b, uid, dtype);
  }

  lemma StampBound(h: Heap, b: nat, uid: nat, dtype: nat)
    requires |h.log| <= 60
    ensures Stamp(h, b, uid, dtype).Go? && |Stamp(h, b, uid, dtype).h.log| <= |h.log| + 3
    ensures b < |h.mem| && LogInPool(h) ==> LogInPool(Stamp(h, b, uid, dtype).h)
  {
    hide Recover, Read;
  }

  lemma MallocBound(h: Heap, size: nat, uid: nat, dtype: nat)
    requires h.log == []
    ensures MallocInternal(h, size, uid, dtype).err != BulOverflow
    ensures |MallocInternal(h, size, uid, dtype).h.log| <= 5 && LogInPool(MallocInternal(h, size, uid, dtype).h)
    ensures MallocInternal(h, size, uid, dtype).ptr.Null? ==> MallocInternal(h, size, uid, dtype).h == h
  {
    hide FindFor, Carved, Claim, BlockUnits;
    var total := BlockUnits(size);
    if FindFor(h, total).At? {
      var b := FindFor(h, total).u;
      CarvedKeepsLog(h, b, total);
      ClaimBound(Carved(h, b, total), b, SubUnits(Get(h, b).size, total) >= MIN_BLOCK, uid, dtype);
    }
  }

  lemma InPlaceBound(h: Heap, b: nat, needed: nat)
    requires h.log == []
    ensures !TryInPlace(h, b, needed).Overflowed?
    ensures TryInPlace(h, b, needed).Yes? ==> |TryInPlace(h, b, needed).h.log| <= 4
  {
    hide Shrink, Expand;
    if needed <= Get(h, b).size {
      ShrinkBound(h, b, needed);
    } else {
      ExpandBound(h, b, needed);
    }
  }

  lemma ShrinkBound(h: Heap, b: nat, needed: nat)
    requires h.log == []
    ensures Shrink(h, b, needed).Go? && |Shrink(h, b, needed).h.log| <= 2
  {
    hide Split, Recover, Read;
    SplitKeepsLog(Push(Push(h, FlagsAt(b)).h, UsedAt).h, b, needed);
  }

  lemma ExpandBound(h: Heap, b: nat, needed: nat)
    requires h.log == []
    ensures Expand(h, b, needed).Go? && |Expand(h, b, needed).h.log| <= 4
  {
    hide RemoveFree, Class, Split, Recover, Read;
    ListsKeepLog(h, NextOf(h, b), Class(Get(h, NextOf(h, b)).size));
    SplitKeepsLog(Absorbed(h, b).h, b, needed);
  }

  lemma MoveBound(h: Heap, b: nat, size: nat, uid: nat)
    requires h.log == []
    ensures Move(h, b, size, uid).err != BulOverflow && Move(h, b, size, uid).h.log == []
  {
    hide MallocInternal, FreeInternal, Undo, BlockUnits;
    MallocBound(h, size, uid, Get(h, b).dtype);
    var a := MallocInternal(h, size, uid, Get(h, b).dtype);
    if a.ptr.At? {
      var n := if Get(h, b).size == 0 then 0 else Min(Get(h, b).size, BlockUnits(size)) - 1;
      FreeBound(Copy(a.h, b + 1, a.ptr.u, n), b, uid);
    }
  }

  /**
   * On any heap, even a corrupted one, no operation overflows the 64-record log, and each leaves
   * stack_top at 0.
   */
  lemma NeverOverflows(h: Heap, op: Op)
    requires h.log == []
    ensures Apply(h, op).err != BulOverflow && Apply(h, op).h.log == []
  {
    hide MallocInternal, FreeInternal, TryInPlace, Move, Recover, Read, UidFind, UidCount, DropUid, BlockUnits,
      CheckBlock;
    match op
    case DoMalloc(size, uid, dtype) => MallocBound(h, size, uid, dtype);
    case DoFree(b, uid) => FreeBound(h, b, uid);
    case DoFreeDc(b, uid) => NoOverflow(h, b); DropBound(h, b, uid, 0);
    case DoRealloc(b, size, uid) =>
      NoOverflow(h, b);
      FreeBound(h, b, uid);
      InPlaceBound(h, b, BlockUnits(size));
      MoveBound(h, b, size, uid);
    case DoLink(b, uid) => NoOverflow(h, b);
    case DoSetDc(b, dc) => NoOverflow(h, b);
    case DoWrite(b, u, l) =>
  }

  lemma NoOverflow(h: Heap, b: nat)
    ensures CheckBlock(h, b) != BulOverflow
  {
  }
}
