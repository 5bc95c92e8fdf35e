/** The allocator's state and its operations as functions on values (libs/tlsf_txn). */
module Heap {
  import opened Mapping

  const MAGIC48: nat := 0xA5C3E7F1B9D2
  const OWNERS: nat := 12
  const MIN_BLOCK: nat := 2
  const BUL_ENTRIES: nat := 64
  /** 2^64, the range of size_t, and 2^58, the same range counted in 64-byte units. */
  const SIZE_RANGE: nat := 0x1_0000_0000_0000_0000
  const UNIT_RANGE: nat := 0x400_0000_0000_0000

  /** The pool sizes in bytes that tlsf_create accepts, and sizeof(struct tlsf_ctrl) on x86-64. */
  const MIN_POOL: nat := 8192
  const MAX_POOL: nat := 0x100_0000_0000
  const CTRL_SIZE: nat := 6720
  /** The heap areas, in units, that these limits leave. */
  const MIN_HEAP: nat := 22
  const MAX_HEAP: nat := (MAX_POOL - CTRL_SIZE) / 64

  datatype Ptr = Null | At(u: nat)

  type Owners = s: seq<nat> | |s| == OWNERS witness NO_OWNERS
  const NO_OWNERS: seq<nat> := [0, 0, 0, 0, 0, 0, 0, 0, 0, 0, 0, 0]

  /** One 64-byte unit of the heap, its eight words named as block_header_t names them. */
  datatype Line = Line(
    size: nat, free: bool, prevFree: bool,
    sig: nat, dc: bool, dtype: nat,
    prev: Ptr, next: Ptr,
    uid: Owners,
    prevSize: nat)

  const ZERO_LINE: Line := Line(0, false, false, 0, false, 0, Null, Null, NO_OWNERS, 0)

  type Matrix = m: seq<Ptr> | |m| == CLASSES witness seq(CLASSES, _ => Null)
  type SlBits = s: seq<set<nat>> | |s| == FLI_MAX witness seq(FLI_MAX, _ => {})

  /** The addresses of the words that the undo log ever records, and their contents. */
  datatype Addr = UsedAt | FlagsAt(u: nat) | SigAt(u: nat) | UidAt(u: nat, k: nat) | PrevSizeAt(u: nat)
  datatype Word =
    | Number(n: int)
    | Flags(size: nat, free: bool, prevFree: bool)
    | Sig(sig: nat, dc: bool, dtype: nat)
    | Uids(a: nat, b: nat, c: nat, d: nat)
  datatype Rec = Rec(addr: Addr, was: Word)

  datatype Heap = Heap(
    mem: seq<Line>, matrix: Matrix, sl: SlBits, fl: set<nat>, used: int, log: seq<Rec>)

  /** A journaled step: go on, or stop because the log overflowed and was rolled back. */
  datatype Txn = Go(h: Heap) | Stop(h: Heap) {
    predicate IsFailure() { Stop? }
    function PropagateFailure(): Txn requires Stop? { this }
    function Extract(): Heap requires Go? { h }
  }

  // ---------------------------------------------------------------- memory

  /** Accesses outside the heap area are not modelled: reads give zeros, writes are dropped. */
  function Get(h: Heap, u: nat): Line {
    if u < |h.mem| then h.mem[u] else ZERO_LINE
  }

  function Put(h: Heap, u: nat, l: Line): Heap {
    if u < |h.mem| then h.(mem := h.mem[u := l]) else h
  }

  function AddUnits(a: nat, b: nat): nat {
    if a + b < UNIT_RANGE then a + b else a + b - UNIT_RANGE
  }

  function SubUnits(a: nat, b: nat): nat
  {
    if a >= b then a - b else if a + UNIT_RANGE >= b then a + UNIT_RANGE - b else 0
  }

  function NextOf(h: Heap, b: nat): nat {
    AddUnits(b, Get(h, b).size)
  }

  // ---------------------------------------------------------------- undo log

  function Read(h: Heap, a: Addr): Word {
    match a
    case UsedAt => Number(h.used)
    case FlagsAt(u) => Flags(Get(h, u).size, Get(h, u).free, Get(h, u).prevFree)
    case SigAt(u) => Sig(Get(h, u).sig, Get(h, u).dc, Get(h, u).dtype)
    case UidAt(u, k) =>
      if k < 3 then
        var s := Get(h, u).uid;
        Uids(s[4 * k], s[4 * k + 1], s[4 * k + 2], s[4 * k + 3])
      else Number(0)
    case PrevSizeAt(u) => Number(Get(h, u).prevSize)
  }

  function Write(h: Heap, a: Addr, w: Word): (r: Heap)
    ensures r.log == h.log && |r.mem| == |h.mem|
  {
    match (a, w)
    case (UsedAt, Number(n)) => h.(used := n)
    case (FlagsAt(u), Flags(s, f, p)) => Put(h, u, Get(h, u).(size := s, free := f, prevFree := p))
    case (SigAt(u), Sig(s, d, t)) => Put(h, u, Get(h, u).(sig := s, dc := d, dtype := t))
    case (UidAt(u, k), Uids(x, y, z, v)) =>
      if k < 3 then
        Put(h, u, Get(h, u).(uid := Get(h, u).uid[4 * k := x][4 * k + 1 := y][4 * k + 2 := z][4 * k + 3 := v]))
      else h
    case (PrevSizeAt(u), Number(n)) => if n >= 0 then Put(h, u, Get(h, u).(prevSize := n)) else h
    case _ => h
  }

  /** validate_pointer of a recorded address: the control structure and the heap area are in the pool. */
  predicate InPool(h: Heap, a: Addr) {
    a != UsedAt ==> a.u < |h.mem|
  }

  /** Roll back from the top of the stack downwards; an address outside the pool stops it. */
  function Undo(h: Heap, n: nat): (r: Heap)
    requires n <= |h.log|
    ensures |r.mem| == |h.mem|
    decreases n
  {
    if n == 0 || !InPool(h, h.log[n - 1].addr) then h else
      Undo(Write(h, h.log[n - 1].addr, h.log[n - 1].was), n - 1)
  }

  predicate LogInPool(h: Heap) {
    forall i :: 0 <= i < |h.log| ==> InPool(h, h.log[i].addr)
  }

  /** A rollback that was stopped half-way leaves stack_top where it was. */
  function Recover(h: Heap): Heap {
    if |h.log| == 0 || |h.log| >= BUL_ENTRIES then h
    else var r := Undo(h, |h.log|); if LogInPool(h) then r.(log := []) else r
  }

  function Push(h: Heap, a: Addr): Txn {
    if |h.log| >= BUL_ENTRIES then Stop(Recover(h))
    else Go(h.(log := h.log + [Rec(a, Read(h, a))]))
  }

  function Commit(h: Heap): Heap { h.(log := []) }

  // ---------------------------------------------------------------- free lists

  function SetHead(h: Heap, k: nat, p: Ptr): Heap
    requires k < CLASSES
  {
    h.(matrix := h.matrix[k := p])
  }

  function Unlink(h: Heap, b: nat, k: nat): Heap
    requires k < CLASSES
  {
    var next := Get(h, b).next;
    var h1 := match Get(h, b).prev
      case At(p) => Put(h, p, Get(h, p).(next := next))
      case Null => SetHead(h, k, next);
    var prev := Get(h1, b).prev;
    match Get(h1, b).next
    case At(n) => Put(h1, n, Get(h1, n).(prev := prev))
    case Null => h1
  }

  /** An emptied list clears its second-level bit, an emptied row its first-level bit. */
  function ClearBits(h: Heap, k: nat): Heap
    requires k < CLASSES
  {
    if h.matrix[k] == Null then
      var row := h.sl[k / 16] - {k % 16};
      h.(sl := h.sl[k / 16 := row], fl := if row == {} then h.fl - {k / 16} else h.fl)
    else h
  }

  function SetBits(h: Heap, k: nat): Heap
    requires k < CLASSES
  {
    h.(sl := h.sl[k / 16 := h.sl[k / 16] + {k % 16}], fl := h.fl + {k / 16})
  }

  function LinkFirst(h: Heap, b: nat, k: nat): Heap
    requires k < CLASSES
  {
    var head := h.matrix[k];
    var h1 := Put(h, b, Get(h, b).(prev := Null, next := head));
    var h2 := match head
      case At(n) => Put(h1, n, Get(h1, n).(prev := At(b)))
      case Null => h1;
    SetHead(h2, k, At(b))
  }

  function RemoveFree(h: Heap, b: nat, k: nat): Heap
    requires k < CLASSES
  {
    ClearBits(Unlink(h, b, k), k)
  }

  function InsertFree(h: Heap, b: nat, k: nat): Heap
    requires k < CLASSES
  {
    SetBits(LinkFirst(h, b, k), k)
  }

  // ---------------------------------------------------------------- blocks

  /** The footer word of a free block is the last word of its last unit. */
  function Footer(h: Heap, b: nat): Heap {
    var last := SubUnits(NextOf(h, b), 1);
    Put(h, last, Get(h, last).(prevSize := Get(h, b).size))
  }

  /** The header writes of split_block: b keeps `size` units, the rest becomes a free block. */
  function Carve(h: Heap, b: nat, size: nat): Heap {
    var rest := AddUnits(b, size);
    var left := SubUnits(Get(h, b).size, size);
    var h1 := Put(h, rest, Line(left, true, false, MAGIC48, false, 0, Null, Null, NO_OWNERS, 0));
    var h2 := Put(h1, b, Get(h1, b).(size := size));
    var next := NextOf(h2, rest);
    var h3 := Put(h2, next, Get(h2, next).(prevFree := true, prevSize := left));
    Footer(h3, rest)
  }

  function Split(h: Heap, b: nat, size: nat): Heap {
    var c := Carve(h, b, size);
    var rest := AddUnits(b, size);
    InsertFree(c, rest, Class(Get(c, rest).size))
  }

  /** The header writes of coalesce_next: b swallows the `more` units behind it. */
  function Swallow(h: Heap, b: nat, more: nat): Heap {
    var h1 := Put(h, b, Get(h, b).(size := AddUnits(Get(h, b).size, more), prevFree := false));
    var after := NextOf(h1, b);
    Put(h1, after, Get(h1, after).(prevFree := true, prevSize := Get(h1, b).size))
  }

  function CoalesceNext(h: Heap, b: nat): Heap {
    var next := NextOf(h, b);
    var more := Get(h, next).size;
    Swallow(RemoveFree(h, next, Class(more)), b, more)
  }

  /** Whether coalesce_prev will merge: PREV_FREE is only a hint and is checked. */
  predicate MergesBack(h: Heap, b: nat) {
    && Get(h, b).prevFree
    && 0 < Get(h, b).prevSize <= b
    && Get(h, b - Get(h, b).prevSize).sig == MAGIC48
    && Get(h, b - Get(h, b).prevSize).free
  }

  /** The forward merge of tlsf_free_internal, taken when the block behind is free. */
  function CoalesceFree(h: Heap, b: nat): Heap {
    var next := NextOf(h, b);
    if next < |h.mem| && Get(h, next).free then CoalesceNext(h, b) else h
  }

  datatype Merged = Merged(h: Heap, b: nat)

  function CoalescePrev(h: Heap, b: nat): Merged {
    if !MergesBack(h, b) then Merged(h, b) else
      var p := b - Get(h, b).prevSize;
      var h1 := RemoveFree(h, p, Class(Get(h, p).size));
      Merged(Put(h1, p, Get(h1, p).(size := AddUnits(Get(h1, p).size, Get(h1, b).size))), p)
  }

  function MarkFree(h: Heap, b: nat): Heap {
    Footer(Put(h, b, Get(h, b).(free := true)), b)
  }

  function MarkAllocated(h: Heap, b: nat): Heap {
    Put(h, b, Get(h, b).(free := false))
  }

  /** The zeroed control structure and heap area. */
  function Blank(n: nat): Heap {
    Heap(seq(n, _ => ZERO_LINE), seq(CLASSES, _ => Null), seq(FLI_MAX, _ => {}), {}, 0, [])
  }

  /** The units between the 64-byte boundary behind the control structure and the end of the pool. */
  function HeapUnits(addr: nat, bytes: nat): nat
    requires MIN_POOL <= bytes
  {
    var start := (addr + CTRL_SIZE + 63) / 64 * 64;
    (bytes - (start - addr)) / 64
  }

  /** tlsf_create over a heap area of n units: one free block. */
  function Create(n: nat): Heap {
    var h1 := Put(Blank(n), 0, Line(n, true, false, MAGIC48, false, 0, Null, Null, NO_OWNERS, 0));
    InsertFree(Footer(h1, 0), 0, Class(n))
  }

  // ---------------------------------------------------------------- owners

  function UidFind(s: Owners, uid: nat, i: nat): (r: nat)
    decreases OWNERS - i
  {
    if i >= OWNERS || s[i] == uid then i else UidFind(s, uid, i + 1)
  }

  function UidCount(s: Owners, i: nat): nat
    decreases OWNERS - i
  {
    if i >= OWNERS then 0 else (if s[i] != 0 then 1 else 0) + UidCount(s, i + 1)
  }

  function UidFirst(s: Owners, i: nat): nat
    decreases OWNERS - i
  {
    if i >= OWNERS then 0 else if s[i] != 0 then s[i] else UidFirst(s, i + 1)
  }

  // ---------------------------------------------------------------- malloc

  /** request_to_block_size in units, with the wrap-around of size_t. */
  function BlockUnits(size: nat): (total: nat)
    ensures total >= MIN_BLOCK
  {
    var up := (size + 63) % SIZE_RANGE / 64;
    var payload := if up < 1 then 1 else up;
    if payload + 1 >= UNIT_RANGE then MIN_BLOCK else payload + 1
  }

  /** Count-trailing-zeros of a bitmap masked to the bits from `i` on. */
  function LeastBit(bits: set<nat>, i: nat): (r: nat)
    ensures r <= 64 || r == i
    ensures r < 64 ==> r in bits && i <= r
    ensures forall j :: i <= j < r && j < 64 ==> j !in bits
    decreases 64 - i
  {
    if i >= 64 || i in bits then i else LeastBit(bits, i + 1)
  }

  function Find(h: Heap, fl: nat, sl: nat): Ptr
    requires fl < FLI_MAX
  {
    var s := LeastBit(h.sl[fl], sl);
    if s < SLI_SIZE then h.matrix[fl * 16 + s] else
      var f := LeastBit(h.fl, fl + 1);
      if f >= FLI_MAX then Null else
        var t := LeastBit(h.sl[f], 0);
        if t < SLI_SIZE then h.matrix[f * 16 + t] else Null
  }

  function FindFor(h: Heap, total: nat): Ptr {
    var fl := FirstLevel(64 * total);
    Find(h, fl, SecondLevel(64 * total, fl))
  }

  /** The unjournaled part of tlsf_malloc_internal: unlink, split, mark. */
  function Carved(h: Heap, b: nat, total: nat): Heap {
    var size := Get(h, b).size;
    var h1 := RemoveFree(h, b, Class(size));
    MarkAllocated(if SubUnits(size, total) >= MIN_BLOCK then Split(h1, b, total) else h1, b)
  }

  /** The journaled part: the right neighbour, the type word, the owner and used_bytes. */
  function Claim(h: Heap, b: nat, split: bool, uid: nat, dtype: nat): Txn {
    var next := NextOf(h, b);
    var h1 :- if next >= |h.mem| then Go(h) else ClaimNext(h, next, Get(h, b).size, split);
    Stamp(h1, b, uid, dtype)
  }

  /** The type word, the first owner and used_bytes. */
  function Stamp(h: Heap, b: nat, uid: nat, dtype: nat): Txn {
    var h2 :- Push(h, SigAt(b));
    var h3 := Put(h2, b, Get(h2, b).(sig := MAGIC48, dc := false, dtype := dtype % 0x8000, uid := NO_OWNERS));
    var h4 :- Push(h3, UidAt(b, 0));
    var h5 := Put(h4, b, Get(h4, b).(uid := Get(h4, b).uid[0 := uid]));
    var h6 :- Push(h5, UsedAt);
    Go(h6.(used := h6.used + Payload(h6, b)))
  }

  function ClaimNext(h: Heap, next: nat, size: nat, split: bool): Txn {
    var h1 :- Push(h, FlagsAt(next));
    if !split then Go(Put(h1, next, Get(h1, next).(prevFree := false))) else
      var h2 := Put(h1, next, Get(h1, next).(prevFree := true));
      var h3 :- Push(h2, PrevSizeAt(next));
      Go(Put(h3, next, Get(h3, next).(prevSize := size)))
  }

  /** block_payload_size in bytes. */
  function Payload(h: Heap, b: nat): int {
    64 * (Get(h, b).size - 1)
  }

  datatype Err =
    | Ok | BulOverflow | BlockCorrupted | OutOfMemory | UidFull | UidNotFound | UidInvalid
    | NotAllocated | TooManyOwners | UidDuplicate | InvalidPtr | PoolTooSmall

  /** A pointer result; `ptr` is the first payload unit, one past the header. */
  datatype Alloc = Alloc(h: Heap, ptr: Ptr, err: Err)
  datatype Done = Done(h: Heap, err: Err)

  function MallocInternal(h: Heap, size: nat, uid: nat, dtype: nat): Alloc {
    if size == 0 then Alloc(h, Null, Ok) else
      var total := BlockUnits(size);
      match FindFor(h, total)
      case Null => Alloc(h, Null, OutOfMemory)
      case At(b) =>
        if Get(h, b).sig != MAGIC48 then Alloc(h, Null, BlockCorrupted) else
          match Claim(Carved(h, b, total), b, SubUnits(Get(h, b).size, total) >= MIN_BLOCK, uid, dtype)
          case Go(r) => Alloc(r, At(b + 1), Ok)
          case Stop(r) => Alloc(r, Null, BulOverflow)
  }

  function Malloc(h: Heap, size: nat, uid: nat, dtype: nat): Alloc {
    if uid == 0 then Alloc(h, Null, UidInvalid) else
      var a := MallocInternal(h, size, uid, dtype);
      if a.ptr.At? then a.(h := Commit(a.h)) else a
  }

  // ---------------------------------------------------------------- free

  function DropUid(h: Heap, b: nat, uid: nat, i: nat): Txn
    decreases OWNERS - i
  {
    if i >= OWNERS then Go(h)
    else if Get(h, b).uid[i] == uid then
      var h1 :- Push(h, UidAt(b, i / 4));
      DropUid(Put(h1, b, Get(h1, b).(uid := Get(h1, b).uid[i := 0])), b, uid, i + 1)
    else DropUid(h, b, uid, i + 1)
  }

  /** Both merges and the insertion of the merged block. */
  function Coalesced(h: Heap, b: nat): Merged {
    var m := CoalescePrev(h, b);
    var h2 := MarkFree(CoalesceFree(m.h, m.b), m.b);
    Merged(InsertFree(h2, m.b, Class(Get(h2, m.b).size)), m.b)
  }

  /** The block behind a freed block learns the size of its new left neighbour. */
  function Announce(h: Heap, b: nat): Txn {
    var after := NextOf(h, b);
    if after >= |h.mem| then Go(h) else
      var h1 :- Push(h, FlagsAt(after));
      var h2 :- Push(Put(h1, after, Get(h1, after).(prevFree := true)), PrevSizeAt(after));
      Go(Put(h2, after, Get(h2, after).(prevSize := Get(h2, b).size)))
  }

  /** What tlsf_free_internal does once the last owner is gone. */
  function Release(h: Heap, b: nat): Txn {
    var h1 :- Push(h, UsedAt);
    var m := Coalesced(h1.(used := h1.used - Payload(h1, b)), b);
    Announce(m.h, m.b)
  }

  /** The checks that every pointer-taking operation starts with. */
  function CheckBlock(h: Heap, b: nat): Err {
    if b >= |h.mem| || Get(h, b).sig != MAGIC48 then BlockCorrupted
    else if Get(h, b).free then NotAllocated
    else Ok
  }

  /** tlsf_free_internal on the block whose header is at b; Ok means "commit". */
  function FreeInternal(h: Heap, b: nat, uid: nat): Done {
    if CheckBlock(h, b) != Ok then Done(h, CheckBlock(h, b))
    else if UidFind(Get(h, b).uid, uid, 0) >= OWNERS then Done(h, UidNotFound)
    else match DropUid(h, b, uid, 0)
      case Stop(r) => Done(r, BulOverflow)
      case Go(d) =>
        if UidCount(Get(d, b).uid, 0) > 0 then Done(d, Ok) else
          match Release(d, b)
          case Stop(r) => Done(r, BulOverflow)
          case Go(r) => Done(r, Ok)
  }

  function Free(h: Heap, b: nat, uid: nat): Done {
    if uid == 0 then Done(h, UidInvalid) else
      var d := FreeInternal(h, b, uid);
      if d.err == Ok then d.(h := Commit(d.h)) else d
  }

  // ---------------------------------------------------------------- owners and dc

  function Link(h: Heap, b: nat, uid: nat): Done {
    if uid == 0 then Done(h, UidInvalid)
    else if CheckBlock(h, b) != Ok then Done(h, CheckBlock(h, b))
    else if UidFind(Get(h, b).uid, uid, 0) < OWNERS then Done(h, UidDuplicate)
    else
      var slot := UidFind(Get(h, b).uid, 0, 0);
      if slot >= OWNERS then Done(h, UidFull) else
        match Push(h, UidAt(b, slot / 4))
        case Stop(r) => Done(r, BulOverflow)
        case Go(r) => Done(Commit(Put(r, b, Get(r, b).(uid := Get(r, b).uid[slot := uid]))), Ok)
  }

  function FreeDc(h: Heap, b: nat, uid: nat): Done {
    if uid == 0 then Done(h, UidInvalid)
    else if CheckBlock(h, b) != Ok then Done(h, CheckBlock(h, b))
    else if UidFind(Get(h, b).uid, uid, 0) >= OWNERS then Done(h, UidNotFound)
    else if UidCount(Get(h, b).uid, 0) == 1 then
      match Push(h, SigAt(b))
      case Stop(r) => Done(r, BulOverflow)
      case Go(r) => Done(Commit(Put(r, b, Get(r, b).(dc := true))), Ok)
    else match DropUid(h, b, uid, 0)
      case Stop(r) => Done(r, BulOverflow)
      case Go(r) => Done(Commit(r), Ok)
  }

  /** tlsf_setdc and tlsf_cleardc: one atomic update, no journal. */
  function SetDc(h: Heap, b: nat, dc: bool): Done {
    if b >= |h.mem| then Done(h, InvalidPtr)
    else if CheckBlock(h, b) != Ok then Done(h, CheckBlock(h, b))
    else Done(Put(h, b, Get(h, b).(dc := dc)), Ok)
  }

  // ---------------------------------------------------------------- realloc

  datatype InPlace = Yes(h: Heap) | No | Overflowed(h: Heap)

  function Shrink(h: Heap, b: nat, needed: nat): Txn {
    var cur := Get(h, b).size;
    if cur - needed < MIN_BLOCK then Go(h) else
      var h1 :- Push(h, FlagsAt(b));
      var h2 :- Push(h1, UsedAt);
      var h3 := Split(h2, b, needed);
      Go(h3.(used := h3.used - (Payload(h, b) - Payload(h3, b))))
  }

  /** The free right neighbour is unlinked and its units become part of b. */
  function Absorbed(h: Heap, b: nat): Txn {
    var next := NextOf(h, b);
    var more := Get(h, next).size;
    var h1 := RemoveFree(h, next, Class(more));
    var h2 :- Push(h1, FlagsAt(b));
    var h3 :- Push(h2, UsedAt);
    Go(Put(h3, b, Get(h3, b).(size := AddUnits(Get(h, b).size, more))))
  }

  function Expand(h: Heap, b: nat, needed: nat): Txn {
    var h1 :- Absorbed(h, b);
    var h2 :-
      if SubUnits(Get(h1, b).size, needed) >= MIN_BLOCK then Go(Split(h1, b, needed)) else ExpandWhole(h1, b);
    Go(h2.(used := h2.used + (Payload(h2, b) - Payload(h, b))))
  }

  function ExpandWhole(h: Heap, b: nat): Txn {
    var after := NextOf(h, b);
    if after >= |h.mem| then Go(h) else
      var h1 :- Push(h, FlagsAt(after));
      var h2 :- Push(h1, PrevSizeAt(after));
      Go(Put(h2, after, Get(h2, after).(prevFree := false)))
  }

  function TryInPlace(h: Heap, b: nat, needed: nat): InPlace {
    var cur := Get(h, b).size;
    if needed <= cur then
      match Shrink(h, b, needed) case Go(r) => Yes(r) case Stop(r) => Overflowed(r)
    else
      var next := NextOf(h, b);
      if next >= |h.mem| || Get(h, next).sig != MAGIC48 || !Get(h, next).free then No
      else if Get(h, next).size == 0 || AddUnits(cur, Get(h, next).size) < needed then No
      else match Expand(h, b, needed) case Go(r) => Yes(r) case Stop(r) => Overflowed(r)
  }

  /** memcpy of `n` units between two blocks. */
  function Copy(h: Heap, from: nat, to: nat, n: nat): Heap {
    h.(mem := seq(|h.mem|, u requires 0 <= u < |h.mem| =>
      if to <= u < to + n then Get(h, from + (u - to)) else h.mem[u]))
  }

  function Min(a: nat, b: nat): nat { if a < b then a else b }

  /** malloc, copy and free inside one transaction. */
  function Move(h: Heap, b: nat, size: nat, uid: nat): Alloc {
    var a := MallocInternal(h, size, uid, Get(h, b).dtype);
    if a.ptr.Null? then a else
      var n := if Get(h, b).size == 0 then 0 else Min(Get(h, b).size, BlockUnits(size)) - 1;
      var d := FreeInternal(Copy(a.h, b + 1, a.ptr.u, n), b, uid);
      if d.err != Ok then Alloc(Recover(d.h), Null, d.err) else Alloc(Commit(d.h), a.ptr, Ok)
  }

  /** tlsf_realloc of a live pointer to a non-zero size. */
  function Realloc(h: Heap, b: nat, size: nat, uid: nat): Alloc {
    if uid == 0 then Alloc(h, Null, UidInvalid)
    else if CheckBlock(h, b) != Ok then Alloc(h, Null, CheckBlock(h, b))
    else if UidFind(Get(h, b).uid, uid, 0) >= OWNERS then Alloc(h, Null, UidNotFound)
    else if UidCount(Get(h, b).uid, 0) > 1 then Alloc(h, Null, TooManyOwners)
    else match TryInPlace(h, b, BlockUnits(size))
      case Yes(r) => Alloc(Commit(r), At(b + 1), Ok)
      case Overflowed(r) => Alloc(r, Null, BulOverflow)
      case No => Move(h, b, size, uid)
  }
}
