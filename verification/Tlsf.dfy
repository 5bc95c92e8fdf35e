/** The allocator as an object that updates one shared buffer in place (libs/tlsf_txn/tlsf_txn.c). */
module Tlsf {
  import opened Mapping
  import opened Heap
  import H = Heap
  import opened Invariant
  import opened Outcomes
  import opened Blocks
  import opened Runs

  /** The client step of a tlsf_realloc call. */
  function ReallocOp(p: Ptr, size: nat, uid: nat): Op {
    match p
    case Null => DoMalloc(size, uid, 0)
    case At(u) => DoRealloc(SubUnits(u, 1), size, uid)
  }

  lemma FreshPool(n: nat)
    requires MIN_HEAP <= n <= MAX_HEAP
    ensures Good(Create(n)) && Tight(Create(n)) && View(Create(n)) == map[]
  {
    hide Wf, Ruled, Walk, Live, Create;
    CreateWf(n);
    WfWalk(Create(n), CREATED);
  }

  /** The control structure and the heap area behind it; `log[..top]` is the open transaction. */
  class Allocator {
    const mem: array<Line>
    const matrix: array<Ptr>
    const rows: array<set<nat>>
    var fl: set<nat>
    var used: int
    const log: array<Rec>
    var top: nat

    ghost predicate Valid()
      reads this
    {
      matrix.Length == CLASSES && rows.Length == FLI_MAX && log.Length == BUL_ENTRIES && top <= BUL_ENTRIES
    }

    ghost function Footprint(): set<object> { {this, mem, matrix, rows, log} }

    /** The heap value that the fields hold. */
    ghost function State(): H.Heap
      requires Valid()
      reads this, mem, matrix, rows, log
    {
      H.Heap(mem[..], matrix[..], rows[..], fl, used, log[..top])
    }

    // -------------------------------------------------------------- words

    function Look(u: nat): (l: Line)
      requires Valid()
      reads this, mem, matrix, rows, log
      ensures l == Get(State(), u)
    {
      if u < mem.Length then mem[u] else ZERO_LINE
    }

    function Behind(b: nat): (n: nat)
      requires Valid()
      reads this, mem, matrix, rows, log
      ensures n == NextOf(State(), b)
    {
      AddUnits(b, Look(b).size)
    }

    /** block_payload_size. */
    function Useful(b: nat): (n: int)
      requires Valid()
      reads this, mem, matrix, rows, log
      ensures n == Payload(State(), b)
    {
      64 * (Look(b).size - 1)
    }

    method Store(u: nat, l: Line)
      requires Valid()
      modifies Footprint()
      ensures Valid() && State() == Put(old(State()), u, l)
    {
      if u < mem.Length {
        mem[u] := l;
        assert mem[..] == old(mem[..])[u := l];
      }
    }

    method StoreHead(k: nat, p: Ptr)
      requires Valid() && k < CLASSES
      modifies Footprint()
      ensures Valid() && State() == SetHead(old(State()), k, p)
    {
      matrix[k] := p;
      assert matrix[..] == old(matrix[..])[k := p];
    }

    method StoreUsed(n: int)
      requires Valid()
      modifies Footprint()
      ensures Valid() && State() == old(State()).(used := n)
    {
      used := n;
    }

    // -------------------------------------------------------------- undo log

    method StoreWord(a: Addr, w: Word)
      requires Valid()
      modifies Footprint()
      ensures Valid() && State() == Write(old(State()), a, w)
    {
      match (a, w)
      case (UsedAt, Number(n)) => used := n;
      case (FlagsAt(u), Flags(s, f, p)) => Store(u, Look(u).(size := s, free := f, prevFree := p));
      case (SigAt(u), Sig(s, d, t)) => Store(u, Look(u).(sig := s, dc := d, dtype := t));
      case (UidAt(u, k), Uids(x, y, z, v)) =>
        if k < 3 {
          Store(u, Look(u).(uid := Look(u).uid[4 * k := x][4 * k + 1 := y][4 * k + 2 := z][4 * k + 3 := v]));
        }
      case (PrevSizeAt(u), Number(n)) =>
        if n >= 0 { Store(u, Look(u).(prevSize := n)); }
      case _ =>
    }

    function LoadWord(a: Addr): (w: Word)
      requires Valid()
      reads this, mem, matrix, rows, log
      ensures w == Read(State(), a)
    {
      match a
      case UsedAt => Number(used)
      case FlagsAt(u) => Flags(Look(u).size, Look(u).free, Look(u).prevFree)
      case SigAt(u) => Sig(Look(u).sig, Look(u).dc, Look(u).dtype)
      case UidAt(u, k) =>
        if k < 3 then
          var s := Look(u).uid;
          Uids(s[4 * k], s[4 * k + 1], s[4 * k + 2], s[4 * k + 3])
        else Number(0)
      case PrevSizeAt(u) => Number(Look(u).prevSize)
    }

    /** bul_recover_internal: undo the records from the newest to the oldest, while they point into the pool. */
    method RecoverInternal() returns (ok: bool)
      requires Valid()
      modifies Footprint()
      ensures Valid() && State() == Recover(old(State()))
      ensures ok <==> old(top) < BUL_ENTRIES && LogInPool(old(State()))
    {
      if top == 0 { return true; }
      if top >= BUL_ENTRIES { return false; }
      var t := top;
      while t > 0
        invariant Valid() && 0 <= t <= top == old(top)
        invariant Undo(State(), t) == Undo(old(State()), old(top))
        invariant State().log == old(State()).log
        invariant forall i :: t <= i < old(top) ==> InPool(old(State()), State().log[i].addr)
      {
        t := t - 1;
        var rec := log[t];
        assert rec == State().log[t];
        if rec.addr != UsedAt && rec.addr.u >= mem.Length { return false; }
        StoreWord(rec.addr, rec.was);
        assert State().log == old(State()).log;
      }
      ghost var undone := State();
      top := 0;
      assert State() == undone.(log := []);
      return true;
    }

    /** bul_push_word: remember a word, or roll the transaction back when the log is full. */
    method PushWord(a: Addr) returns (ok: bool)
      requires Valid()
      modifies Footprint()
      ensures Valid() && Push(old(State()), a) == if ok then Go(State()) else Stop(State())
    {
      if top >= BUL_ENTRIES {
        var _ := RecoverInternal();
        return false;
      }
      log[top] := Rec(a, LoadWord(a));
      top := top + 1;
      assert log[..top] == old(log[..top]) + [Rec(a, old(LoadWord(a)))];
      return true;
    }

    method CommitLog()
      requires Valid()
      modifies Footprint()
      ensures Valid() && State() == Commit(old(State()))
    {
      top := 0;
    }

    // -------------------------------------------------------------- free lists

    method RemoveFromFreeList(b: nat, k: nat)
      requires Valid() && k < CLASSES
      modifies Footprint()
      ensures Valid() && State() == RemoveFree(old(State()), b, k)
    {
      match Look(b).prev {
        case At(p) => Store(p, Look(p).(next := Look(b).next));
        case Null => StoreHead(k, Look(b).next);
      }
      match Look(b).next {
        case At(n) => Store(n, Look(n).(prev := Look(b).prev));
        case Null =>
      }
      if matrix[k] == Null { ClearBit(k); }
    }

    method ClearBit(k: nat)
      requires Valid() && k < CLASSES && matrix[k] == Null
      modifies Footprint()
      ensures Valid() && State() == ClearBits(old(State()), k)
    {
      rows[k / 16] := rows[k / 16] - {k % 16};
      assert rows[..] == old(rows[..])[k / 16 := old(rows[k / 16]) - {k % 16}];
      if rows[k / 16] == {} { fl := fl - {k / 16}; }
    }

    method InsertIntoFreeList(b: nat, k: nat)
      requires Valid() && k < CLASSES
      modifies Footprint()
      ensures Valid() && State() == InsertFree(old(State()), b, k)
    {
      var head := matrix[k];
      assert head == State().matrix[k];
      Store(b, Look(b).(prev := Null, next := head));
      if head.At? { Store(head.u, Look(head.u).(prev := At(b))); }
      StoreHead(k, At(b));
      SetBit(k);
    }

    method SetBit(k: nat)
      requires Valid() && k < CLASSES
      modifies Footprint()
      ensures Valid() && State() == SetBits(old(State()), k)
    {
      rows[k / 16] := rows[k / 16] + {k % 16};
      assert rows[..] == old(rows[..])[k / 16 := old(rows[k / 16]) + {k % 16}];
      fl := fl + {k / 16};
    }

    /** find_suitable_block: this row from `second` on, or the first non-empty row above. */
    method FindSuitable(first: nat, second: nat) returns (p: Ptr)
      requires Valid() && first < FLI_MAX
      ensures p == Find(State(), first, second)
    {
      var s := LeastBit(rows[first], second);
      assert State().sl[first] == rows[first];
      if s < SLI_SIZE { return matrix[first * 16 + s]; }
      var f := LeastBit(fl, first + 1);
      if f >= FLI_MAX { return Null; }
      assert State().sl[f] == rows[f];
      var t := LeastBit(rows[f], 0);
      if t >= SLI_SIZE { return Null; }
      return matrix[f * 16 + t];
    }

    // -------------------------------------------------------------- blocks

    method WriteFooter(b: nat)
      requires Valid()
      modifies Footprint()
      ensures Valid() && State() == Footer(old(State()), b)
    {
      var last := SubUnits(Behind(b), 1);
      Store(last, Look(last).(prevSize := Look(b).size));
    }

    method MarkBlockFree(b: nat)
      requires Valid()
      modifies Footprint()
      ensures Valid() && State() == MarkFree(old(State()), b)
    {
      Store(b, Look(b).(free := true));
      WriteFooter(b);
    }

    method MarkBlockAllocated(b: nat)
      requires Valid()
      modifies Footprint()
      ensures Valid() && State() == MarkAllocated(old(State()), b)
    {
      Store(b, Look(b).(free := false));
    }

    method SplitBlock(b: nat, size: nat)
      requires Valid()
      modifies Footprint()
      ensures Valid() && State() == Split(old(State()), b, size)
    {
      var rest := AddUnits(b, size);
      var left := SubUnits(Look(b).size, size);
      Store(rest, Line(left, true, false, MAGIC48, false, 0, Null, Null, NO_OWNERS, 0));
      Store(b, Look(b).(size := size));
      var next := Behind(rest);
      Store(next, Look(next).(prevFree := true, prevSize := left));
      WriteFooter(rest);
      InsertIntoFreeList(rest, Class(Look(rest).size));
    }

    method CoalesceWithNext(b: nat)
      requires Valid()
      modifies Footprint()
      ensures Valid() && State() == CoalesceNext(old(State()), b)
    {
      var next := Behind(b);
      var more := Look(next).size;
      RemoveFromFreeList(next, Class(more));
      Store(b, Look(b).(size := AddUnits(Look(b).size, more), prevFree := false));
      var after := Behind(b);
      Store(after, Look(after).(prevFree := true, prevSize := Look(b).size));
    }

    method CoalesceWithPrev(b: nat) returns (p: nat)
      requires Valid()
      modifies Footprint()
      ensures Valid() && Merged(State(), p) == CoalescePrev(old(State()), b)
    {
      var ps := Look(b).prevSize;
      if !Look(b).prevFree || ps == 0 || ps > b { return b; }
      p := b - ps;
      if Look(p).sig != MAGIC48 || !Look(p).free { return b; }
      RemoveFromFreeList(p, Class(Look(p).size));
      Store(p, Look(p).(size := AddUnits(Look(p).size, Look(b).size)));
    }

    // -------------------------------------------------------------- owners

    /** uid_find, also uid_find_empty for uid 0; OWNERS stands for -1. */
    method FindUid(b: nat, uid: nat) returns (i: nat)
      requires Valid()
      ensures i == UidFind(Look(b).uid, uid, 0)
    {
      i := 0;
      while i < OWNERS && Look(b).uid[i] != uid
        invariant i <= OWNERS
        invariant UidFind(Look(b).uid, uid, 0) == UidFind(Look(b).uid, uid, i)
      {
        i := i + 1;
      }
    }

    method CountUids(b: nat) returns (n: nat)
      requires Valid()
      ensures n == UidCount(Look(b).uid, 0)
    {
      n := 0;
      for i := 0 to OWNERS
        invariant UidCount(Look(b).uid, 0) == n + UidCount(Look(b).uid, i)
      {
        if Look(b).uid[i] != 0 { n := n + 1; }
      }
    }

    /** The loop that clears every slot holding uid. */
    method DropOwner(b: nat, uid: nat) returns (ok: bool)
      requires Valid()
      modifies Footprint()
      ensures Valid() && DropUid(old(State()), b, uid, 0) == if ok then Go(State()) else Stop(State())
    {
      for i := 0 to OWNERS
        invariant Valid()
        invariant DropUid(old(State()), b, uid, 0) == DropUid(State(), b, uid, i)
      {
        if Look(b).uid[i] == uid {
          var pushed := PushWord(UidAt(b, i / 4));
          if !pushed { return false; }
          Store(b, Look(b).(uid := Look(b).uid[i := 0]));
        }
      }
      return true;
    }

    // -------------------------------------------------------------- malloc

    /** The next block learns about its new left neighbour, as far as malloc tells it. */
    method TellNext(next: nat, size: nat, split: bool) returns (ok: bool)
      requires Valid()
      modifies Footprint()
      ensures Valid() && ClaimNext(old(State()), next, size, split) == if ok then Go(State()) else Stop(State())
    {
      ok := PushWord(FlagsAt(next));
      if !ok { return; }
      if !split {
        Store(next, Look(next).(prevFree := false));
        return;
      }
      Store(next, Look(next).(prevFree := true));
      ok := PushWord(PrevSizeAt(next));
      if !ok { return; }
      Store(next, Look(next).(prevSize := size));
    }

    /** The journaled half of tlsf_malloc_internal. */
    method ClaimBlock(b: nat, split: bool, uid: nat, dtype: nat) returns (ok: bool)
      requires Valid()
      modifies Footprint()
      ensures Valid() && Claim(old(State()), b, split, uid, dtype) == if ok then Go(State()) else Stop(State())
    {
      hide ClaimNext, Stamp;
      var next := Behind(b);
      if next < mem.Length {
        ok := TellNext(next, Look(b).size, split);
        if !ok { return; }
      }
      ok := StampBlock(b, uid, dtype);
    }

    method StampBlock(b: nat, uid: nat, dtype: nat) returns (ok: bool)
      requires Valid()
      modifies Footprint()
      ensures Valid() && Stamp(old(State()), b, uid, dtype) == if ok then Go(State()) else Stop(State())
    {
      hide Recover, Read;
      ok := PushWord(SigAt(b));
      if !ok { return; }
      Store(b, Look(b).(sig := MAGIC48, dc := false, dtype := dtype % 0x8000, uid := NO_OWNERS));
      ok := PushWord(UidAt(b, 0));
      if !ok { return; }
      Store(b, Look(b).(uid := Look(b).uid[0 := uid]));
      ok := PushWord(UsedAt);
      if !ok { return; }
      StoreUsed(used + Useful(b));
    }

    method AllocateInternal(size: nat, uid: nat, dtype: nat) returns (ptr: Ptr, err: Err)
      requires Valid()
      modifies Footprint()
      ensures Valid() && Alloc(State(), ptr, err) == MallocInternal(old(State()), size, uid, dtype)
    {
      hide Find, RemoveFree, Split, MarkAllocated, Claim, Class;
      if size == 0 { return Null, Ok; }
      var total := BlockUnits(size);
      var first := FirstLevel(64 * total);
      var found := FindSuitable(first, SecondLevel(64 * total, first));
      if found == Null { return Null, OutOfMemory; }
      var b := found.u;
      if Look(b).sig != MAGIC48 { return Null, BlockCorrupted; }
      var had := Look(b).size;
      RemoveFromFreeList(b, Class(had));
      var split := SubUnits(had, total) >= MIN_BLOCK;
      if split { SplitBlock(b, total); }
      MarkBlockAllocated(b);
      assert State() == Carved(old(State()), b, total);
      var ok := ClaimBlock(b, split, uid, dtype);
      if ok { return At(b + 1), Ok; }
      return Null, BulOverflow;
    }

    method Allocate(size: nat, uid: nat, dtype: nat) returns (ptr: Ptr, err: Err)
      requires Valid()
      modifies Footprint()
      ensures Valid() && Alloc(State(), ptr, err) == Malloc(old(State()), size, uid, dtype)
      ensures Serves(old(State()), DoMalloc(size, uid, dtype), Alloc(State(), ptr, err))
    {
      hide MallocInternal, Serves;
      AlwaysServes(State(), DoMalloc(size, uid, dtype));
      if uid == 0 { return Null, UidInvalid; }
      ptr, err := AllocateInternal(size, uid, dtype);
      if ptr != Null { CommitLog(); }
    }

    // -------------------------------------------------------------- free

    /** Merge with both neighbours and list the merged block. */
    method Coalesce(b: nat) returns (merged: nat)
      requires Valid()
      modifies Footprint()
      ensures Valid() && Merged(State(), merged) == Coalesced(old(State()), b)
    {
      hide CoalescePrev, CoalesceNext, MarkFree, InsertFree, Class;
      merged := CoalesceWithPrev(b);
      var next := Behind(merged);
      if next < mem.Length && Look(next).free { CoalesceWithNext(merged); }
      MarkBlockFree(merged);
      InsertIntoFreeList(merged, Class(Look(merged).size));
    }

    method AnnounceTo(b: nat) returns (ok: bool)
      requires Valid()
      modifies Footprint()
      ensures Valid() && Announce(old(State()), b) == if ok then Go(State()) else Stop(State())
    {
      hide Recover;
      var after := Behind(b);
      if after >= mem.Length { return true; }
      ok := PushWord(FlagsAt(after));
      if !ok { return; }
      Store(after, Look(after).(prevFree := true));
      ok := PushWord(PrevSizeAt(after));
      if !ok { return; }
      Store(after, Look(after).(prevSize := Look(b).size));
    }

    method ReturnBlock(b: nat) returns (ok: bool)
      requires Valid()
      modifies Footprint()
      ensures Valid() && Release(old(State()), b) == if ok then Go(State()) else Stop(State())
    {
      hide Coalesced, Announce, Recover;
      ok := PushWord(UsedAt);
      if !ok { return; }
      StoreUsed(used - Useful(b));
      var merged := Coalesce(b);
      ok := AnnounceTo(merged);
    }

    /** validate_pointer, validate_block_signature and block_is_free. */
    method Check(b: nat) returns (err: Err)
      requires Valid()
      ensures err == CheckBlock(State(), b)
    {
      if b >= mem.Length || Look(b).sig != MAGIC48 { return BlockCorrupted; }
      if Look(b).free { return NotAllocated; }
      return Ok;
    }

    method ReleaseInternal(b: nat, uid: nat) returns (err: Err)
      requires Valid()
      modifies Footprint()
      ensures Valid() && Done(State(), err) == FreeInternal(old(State()), b, uid)
    {
      hide Release, DropUid, UidFind, UidCount, CheckBlock;
      err := Check(b);
      if err != Ok { return; }
      var i := FindUid(b, uid);
      if i >= OWNERS { return UidNotFound; }
      var ok := DropOwner(b, uid);
      if !ok { return BulOverflow; }
      var owners := CountUids(b);
      if owners > 0 { return Ok; }
      ok := ReturnBlock(b);
      if !ok { return BulOverflow; }
    }

    method ReleaseOwner(b: nat, uid: nat) returns (err: Err)
      requires Valid()
      modifies Footprint()
      ensures Valid() && Done(State(), err) == Free(old(State()), b, uid)
      ensures Serves(old(State()), DoFree(b, uid), Alloc(State(), Null, err))
    {
      hide FreeInternal, Serves;
      AlwaysServes(State(), DoFree(b, uid));
      if uid == 0 { return UidInvalid; }
      err := ReleaseInternal(b, uid);
      if err == Ok { CommitLog(); }
    }

    // -------------------------------------------------------------- owners and dc

    method LinkOwner(b: nat, uid: nat) returns (err: Err)
      requires Valid()
      modifies Footprint()
      ensures Valid() && Done(State(), err) == Link(old(State()), b, uid)
      ensures Serves(old(State()), DoLink(b, uid), Alloc(State(), Null, err))
    {
      hide UidFind, CheckBlock, Recover, Serves;
      AlwaysServes(State(), DoLink(b, uid));
      if uid == 0 { return UidInvalid; }
      err := Check(b);
      if err != Ok { return; }
      var i := FindUid(b, uid);
      if i < OWNERS { return UidDuplicate; }
      var slot := FindUid(b, 0);
      if slot >= OWNERS { return UidFull; }
      var ok := PushWord(UidAt(b, slot / 4));
      if !ok { return BulOverflow; }
      Store(b, Look(b).(uid := Look(b).uid[slot := uid]));
      CommitLog();
    }

    method DeferFree(b: nat, uid: nat) returns (err: Err)
      requires Valid()
      modifies Footprint()
      ensures Valid() && Done(State(), err) == FreeDc(old(State()), b, uid)
      ensures Serves(old(State()), DoFreeDc(b, uid), Alloc(State(), Null, err))
    {
      hide UidFind, UidCount, DropUid, CheckBlock, Recover, Serves;
      AlwaysServes(State(), DoFreeDc(b, uid));
      if uid == 0 { return UidInvalid; }
      err := Check(b);
      if err != Ok { return; }
      var i := FindUid(b, uid);
      if i >= OWNERS { return UidNotFound; }
      var owners := CountUids(b);
      var ok: bool;
      if owners == 1 {
        ok := PushWord(SigAt(b));
        if !ok { return BulOverflow; }
        Store(b, Look(b).(dc := true));
      } else {
        ok := DropOwner(b, uid);
        if !ok { return BulOverflow; }
      }
      CommitLog();
    }

    method MarkDc(b: nat, dc: bool) returns (err: Err)
      requires Valid()
      modifies Footprint()
      ensures Valid() && Done(State(), err) == SetDc(old(State()), b, dc)
      ensures Serves(old(State()), DoSetDc(b, dc), Alloc(State(), Null, err))
    {
      hide Serves, CheckBlock;
      AlwaysServes(State(), DoSetDc(b, dc));
      if b >= mem.Length { return InvalidPtr; }
      err := Check(b);
      if err == Ok { Store(b, Look(b).(dc := dc)); }
    }

    // -------------------------------------------------------------- realloc

    method ShrinkBlock(b: nat, needed: nat) returns (ok: bool)
      requires Valid()
      modifies Footprint()
      ensures Valid() && Shrink(old(State()), b, needed) == if ok then Go(State()) else Stop(State())
    {
      hide Split, Recover;
      var cur, useful := Look(b).size, Useful(b);
      if cur - needed < MIN_BLOCK { return true; }
      ok := PushWord(FlagsAt(b));
      if !ok { return; }
      ok := PushWord(UsedAt);
      if !ok { return; }
      SplitBlock(b, needed);
      StoreUsed(used - (useful - Useful(b)));
    }

    method ExpandBlock(b: nat, needed: nat) returns (ok: bool)
      requires Valid()
      modifies Footprint()
      ensures Valid() && Expand(old(State()), b, needed) == if ok then Go(State()) else Stop(State())
    {
      hide Split, RemoveFree, Class, Recover;
      var cur, useful := Look(b).size, Useful(b);
      var next := Behind(b);
      var more := Look(next).size;
      RemoveFromFreeList(next, Class(more));
      ok := PushWord(FlagsAt(b));
      if !ok { return; }
      ok := PushWord(UsedAt);
      if !ok { return; }
      Store(b, Look(b).(size := AddUnits(cur, more)));
      assert Absorbed(old(State()), b) == Go(State());
      if SubUnits(Look(b).size, needed) >= MIN_BLOCK {
        SplitBlock(b, needed);
      } else {
        ok := ForgetPrev(b);
        if !ok { return; }
      }
      StoreUsed(used + (Useful(b) - useful));
    }

    method ForgetPrev(b: nat) returns (ok: bool)
      requires Valid()
      modifies Footprint()
      ensures Valid() && ExpandWhole(old(State()), b) == if ok then Go(State()) else Stop(State())
    {
      hide Recover;
      var after := Behind(b);
      if after >= mem.Length { return true; }
      ok := PushWord(FlagsAt(after));
      if !ok { return; }
      ok := PushWord(PrevSizeAt(after));
      if !ok { return; }
      Store(after, Look(after).(prevFree := false));
    }

    /** 1 for done, 0 for no room, -1 for an overflowed log. */
    method ResizeInPlace(b: nat, needed: nat) returns (rc: int)
      requires Valid()
      modifies Footprint()
      ensures Valid()
      ensures TryInPlace(old(State()), b, needed)
        == if rc == 1 then Yes(State()) else if rc == 0 then No else Overflowed(State())
      ensures rc == 0 ==> State() == old(State())
    {
      hide Shrink, Expand;
      var cur := Look(b).size;
      var ok: bool;
      if needed <= cur {
        ok := ShrinkBlock(b, needed);
        return if ok then 1 else -1;
      }
      var next := Behind(b);
      if next >= mem.Length || Look(next).sig != MAGIC48 || !Look(next).free { return 0; }
      if Look(next).size == 0 || AddUnits(cur, Look(next).size) < needed { return 0; }
      ok := ExpandBlock(b, needed);
      return if ok then 1 else -1;
    }

    method CopyUnits(from: nat, to: nat, n: nat)
      requires Valid()
      modifies Footprint()
      ensures Valid() && State() == Copy(old(State()), from, to, n)
    {
      forall u | to <= u < to + n && u < mem.Length {
        mem[u] := Look(from + (u - to));
      }
      assert mem[..] == Copy(old(State()), from, to, n).mem;
    }

    method MoveBlock(b: nat, size: nat, uid: nat) returns (ptr: Ptr, err: Err)
      requires Valid()
      modifies Footprint()
      ensures Valid() && Alloc(State(), ptr, err) == Move(old(State()), b, size, uid)
    {
      hide MallocInternal, FreeInternal, Copy, Recover, BlockUnits;
      var cur := Look(b).size;
      ptr, err := AllocateInternal(size, uid, Look(b).dtype);
      if ptr == Null { return; }
      CopyUnits(b + 1, ptr.u, if cur == 0 then 0 else Min(cur, BlockUnits(size)) - 1);
      err := ReleaseInternal(b, uid);
      if err != Ok {
        var _ := RecoverInternal();
        return Null, err;
      }
      CommitLog();
    }

    /** tlsf_realloc; without a pointer it is tlsf_malloc with data type 0. */
    method Reallocate(p: Ptr, size: nat, uid: nat) returns (ptr: Ptr, err: Err)
      requires Valid()
      modifies Footprint()
      ensures Valid() && Alloc(State(), ptr, err) == Apply(old(State()), ReallocOp(p, size, uid))
      ensures Serves(old(State()), ReallocOp(p, size, uid), Alloc(State(), ptr, err))
    {
      hide Malloc, Serves, Free, Realloc;
      match p
      case Null => ptr, err := Allocate(size, uid, 0);
      case At(u) => ptr, err := ReallocateBlock(SubUnits(u, 1), size, uid);
    }

    method ReallocateBlock(b: nat, size: nat, uid: nat) returns (ptr: Ptr, err: Err)
      requires Valid()
      modifies Footprint()
      ensures Valid() && Alloc(State(), ptr, err) == Apply(old(State()), DoRealloc(b, size, uid))
      ensures Serves(old(State()), DoRealloc(b, size, uid), Alloc(State(), ptr, err))
    {
      hide UidFind, UidCount, CheckBlock, TryInPlace, Move, BlockUnits, Free, Serves;
      AlwaysServes(State(), DoRealloc(b, size, uid));
      if size == 0 {
        err := ReleaseOwner(b, uid);
        return Null, err;
      }
      if uid == 0 { return Null, UidInvalid; }
      err := Check(b);
      if err != Ok { return Null, err; }
      var i := FindUid(b, uid);
      if i >= OWNERS { return Null, UidNotFound; }
      var owners := CountUids(b);
      if owners > 1 { return Null, TooManyOwners; }
      var rc := ResizeInPlace(b, BlockUnits(size));
      if rc == 1 {
        CommitLog();
        return At(b + 1), Ok;
      }
      if rc != 0 { return Null, BulOverflow; }
      ptr, err := MoveBlock(b, size, uid);
    }

    // -------------------------------------------------------------- create

    /** tlsf_create in a buffer of so many bytes at addr. */
    static method CreatePool(addr: nat, bytes: nat) returns (pool: Allocator?, err: Err)
      ensures addr == 0 ==> pool == null && err == Ok
      ensures addr != 0 && !(MIN_POOL <= bytes <= MAX_POOL) ==> pool == null && err == PoolTooSmall
      ensures addr != 0 && MIN_POOL <= bytes <= MAX_POOL ==>
        && pool != null && err == Ok
        && pool.Valid() && fresh(pool.Footprint())
        && MIN_HEAP <= HeapUnits(addr, bytes) <= MAX_HEAP
        && pool.State() == Create(HeapUnits(addr, bytes))
        && Good(pool.State()) && Tight(pool.State()) && View(pool.State()) == map[]
    {
      hide Create, Good, Tight, View;
      if addr == 0 { return null, Ok; }
      if bytes < MIN_POOL || bytes > MAX_POOL { return null, PoolTooSmall; }
      var start := (addr + CTRL_SIZE + 63) / 64 * 64;
      var n := (bytes - (start - addr)) / 64;
      FreshPool(n);
      pool := new Allocator(n);
      return pool, Ok;
    }

    /** tlsf_create over a heap area of n units. */
    constructor (n: nat)
      requires MIN_BLOCK <= n < UNIT_RANGE
      ensures Valid() && fresh(Footprint()) && State() == Create(n)
    {
      mem := new Line[n](_ => ZERO_LINE);
      matrix := new Ptr[CLASSES](_ => Null);
      rows := new set<nat>[FLI_MAX](_ => {});
      fl := {};
      used := 0;
      log := new Rec[BUL_ENTRIES](_ => Rec(UsedAt, Number(0)));
      top := 0;
      new;
      assert State() == Blank(n);
      Store(0, Line(n, true, false, MAGIC48, false, 0, Null, Null, NO_OWNERS, 0));
      WriteFooter(0);
      InsertIntoFreeList(0, Class(n));
    }
  }
}
