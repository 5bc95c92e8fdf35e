/** Every run of the allocator refines a run of the client's map. */
module Runs {
  import opened Heap
  import opened FreeLists
  import opened Invariant
  import opened Abstraction
  import opened FreeProof
  import opened ReallocProof
  import opened Search
  import opened Outcomes
  import opened Ownership
  import opened Refinement
  import opened Blocks

  /** One client step; b is the header in front of the pointer that the client passes. */
  datatype Op =
    | DoMalloc(size: nat, uid: nat, dtype: nat)
    | DoFree(b: nat, uid: nat)
    | DoLink(b: nat, uid: nat)
    | DoFreeDc(b: nat, uid: nat)
    | DoSetDc(b: nat, dc: bool)
    | DoRealloc(b: nat, size: nat, uid: nat)
    | DoWrite(b: nat, u: nat, l: Line)

  function Pointless(d: Done): Alloc { Alloc(d.h, Null, d.err) }

  function Apply(h: Heap, op: Op): Alloc {
    match op
    case DoMalloc(size, uid, dtype) => Malloc(h, size, uid, dtype)
    case DoFree(b, uid) => Pointless(Free(h, b, uid))
    case DoLink(b, uid) => Pointless(Link(h, b, uid))
    case DoFreeDc(b, uid) => Pointless(FreeDc(h, b, uid))
    case DoSetDc(b, dc) => Pointless(SetDc(h, b, dc))
    case DoRealloc(b, size, uid) =>
      if size == 0 then Pointless(Free(h, b, uid)) else Realloc(h, b, size, uid)
    case DoWrite(b, u, l) => Alloc(Put(h, u, l), Null, Ok)
  }

  // ---------------------------------------------------------------- what a client may do

  /** A pointer that the header checks would accept points at a live block. */
  ghost predicate Named(h: Heap, b: nat) {
    CheckBlock(h, b) == Ok ==> b in View(h)
  }

  ghost predicate Legal(h: Heap, op: Op) {
    match op
    case DoMalloc(size, uid, _) => uid == 0 || size == 0 || Fits(h, size)
    case DoRealloc(b, size, uid) =>
      && Named(h, b)
      && (size == 0 || ReallocErr(View(h), b, uid) != Ok || InPlaceOrFits(h, b, size))
    case DoWrite(b, u, _) => b in View(h) && b < u < b + View(h)[b].size
    case _ => Named(h, op.b)
  }

  ghost predicate InPlaceOrFits(h: Heap, b: nat, size: nat) {
    Fits(h, size) || (b < |h.mem| && FitsInPlace(h, b, BlockUnits(size)))
  }

  // ---------------------------------------------------------------- which rules a step breaks

  /** The step gives block b of heap h back: its last owner leaves. */
  ghost function BrokenByRelease(h: Heap, b: nat): set<Rule>
    requires b < |h.mem|
  {
    BrokenBy(h, Walk(h.mem, 0), b)
  }

  /**
   * The rules of a coalesced heap that the step breaks, from guards that can be looked up before it: an
   * in-place cut beside a free block breaks the separation; giving a block back breaks what
   * `BreaksRule` says of it, in the heap at that moment; nothing else breaks either rule.
   */
  ghost function Breaks(h: Heap, op: Op): set<Rule> {
    match op
    case DoFree(b, uid) => BrokenByFreeing(h, b, uid)
    case DoRealloc(b, size, uid) =>
      if size == 0 then BrokenByFreeing(h, b, uid)
      else if b >= |h.mem| || ReallocErr(View(h), b, uid) != Ok then {}
      else if FitsInPlace(h, b, BlockUnits(size)) then BrokenInPlace(h, b, BlockUnits(size))
      else BrokenByMoving(h, b, size, uid)
    case _ => {}
  }

  ghost function BrokenByFreeing(h: Heap, b: nat, uid: nat): set<Rule> {
    if b < |h.mem| && b in View(h) then BrokenByFree(h, Walk(h.mem, 0), b, uid) else {}
  }

  ghost function BrokenByMoving(h: Heap, b: nat, size: nat, uid: nat): set<Rule>
    requires b < |h.mem|
  {
    if h.mem[b].size == 0 || FindFor(h, BlockUnits(size)).Null? then {} else
      var g := Staged(h, b, size, uid);
      if b < |g.mem| then BrokenByRelease(g, b) else {}
  }

  /** In a coalesced heap only an in-place cut beside a free block breaks anything. */
  ghost predicate Loosens(h: Heap, op: Op) {
    && op.DoRealloc? && op.size > 0 && op.b < |h.mem|
    && ReallocErr(View(h), op.b, op.uid) == Ok
    && CutsBesideFree(h, op.b, BlockUnits(op.size))
  }

  // ---------------------------------------------------------------- what the client sees

  /** A pointer to no live block may also be reported as corrupted or out of range. */
  predicate Reports(got: Err, said: Err) {
    got == said || (said == NotAllocated && (got == BlockCorrupted || got == InvalidPtr))
  }

  /** The steps of the client's map, with the returned pointer and error. */
  ghost predicate Allowed(m: map<nat, Entry>, op: Op, n: map<nat, Entry>, ptr: Ptr, err: Err) {
    match op
    case DoMalloc(size, uid, dtype) =>
      if uid == 0 || size == 0 then n == m && ptr == Null && err == (if uid == 0 then UidInvalid else Ok)
      else if ptr == Null then n == m && err == OutOfMemory
      else ptr.u > 0 && err == Ok && Gains(m, n, ptr.u - 1, BlockUnits(size), uid, dtype)
    case DoFree(b, uid) => FreeAllowed(m, b, uid, n, ptr, err)
    case DoLink(b, uid) => ptr == Null && n == LinkSpec(m, b, uid) && Reports(err, LinkErr(m, b, uid))
    case DoFreeDc(b, uid) => ptr == Null && n == FreeDcSpec(m, b, uid) && Reports(err, FreeErr(m, b, uid))
    case DoSetDc(b, dc) => ptr == Null && n == SetDcSpec(m, b, dc) && Reports(err, if b in m then Ok else NotAllocated)
    case DoRealloc(b, size, uid) =>
      if size == 0 then FreeAllowed(m, b, uid, n, ptr, err)
      else if ReallocErr(m, b, uid) != Ok then n == m && ptr == Null && Reports(err, ReallocErr(m, b, uid))
      else if ptr == Null then n == m && err == OutOfMemory
      else if ptr == At(b + 1) then err == Ok && Resizes(m, n, b, BlockUnits(size))
      else ptr.u > 0 && err == Ok && Rehouses(m, n, b, ptr.u - 1, BlockUnits(size))
    case DoWrite(_, _, _) => n == m && ptr == Null && err == Ok
  }

  ghost predicate FreeAllowed(m: map<nat, Entry>, b: nat, uid: nat, n: map<nat, Entry>, ptr: Ptr, err: Err) {
    ptr == Null && n == FreeSpec(m, b, uid) && Reports(err, FreeErr(m, b, uid))
  }

  /** Payloads of blocks live before and after stay, except the one that the client writes itself. */
  ghost predicate Carries(h: Heap, op: Op, r: Alloc) {
    && PayloadKept(h.mem, r.h.mem, Common(View(h), View(r.h)) - (if op.DoWrite? then {op.b} else {}))
    && (op.DoRealloc? && r.ptr.At? && r.ptr != At(op.b + 1) ==>
          && op.b < |h.mem| && r.ptr.u > 0
          && Moved(h.mem, r.h.mem, op.b, r.ptr.u - 1, Min(h.mem[op.b].size, BlockUnits(op.size))))
  }

  /** Of the rules that h keeps, r keeps exactly those that are not broken. */
  ghost predicate ExactlyBreaks(h: Heap, r: Heap, broken: set<Rule>) {
    forall rule {:trigger Keeps(r, rule)} {:trigger Keeps(h, rule)} ::
      Keeps(h, rule) ==> (Keeps(r, rule) <==> rule !in broken)
  }

  ghost predicate StepKeeps(h: Heap, op: Op, r: Alloc) {
    && Good(r.h)
    && Allowed(View(h), op, View(r.h), r.ptr, r.err)
    && Carries(h, op, r)
    && ExactlyBreaks(h, r.h, Breaks(h, op))
  }

  /** No free block can hold `total` units. */
  ghost predicate NoRoom(h: Heap, total: nat) {
    forall b :: b in Walk(h.mem, 0) && h.mem[b].free ==> h.mem[b].size < total
  }

  /** A request for memory that nothing can satisfy. */
  ghost predicate OutOfRoom(h: Heap, op: Op) {
    match op
    case DoMalloc(size, uid, _) => uid != 0 && size > 0 && NoRoom(h, BlockUnits(size))
    case DoRealloc(b, size, uid) =>
      && size > 0 && ReallocErr(View(h), b, uid) == Ok
      && !(b < |h.mem| && FitsInPlace(h, b, BlockUnits(size))) && NoRoom(h, BlockUnits(size))
    case _ => false
  }

  ghost predicate StepOk(h: Heap, op: Op, r: Alloc) {
    StepKeeps(h, op, r) && (r.err == OutOfMemory <==> OutOfRoom(h, op))
  }

  // ---------------------------------------------------------------- one step

  /** From the lemmas on one operation to the shape-free view. */
  lemma FromUpdates(h: Heap, r: Heap, s: Shape, t: Shape, n: map<nat, Entry>, broken: set<Rule>)
    requires Wf(h, s) && InRange(h.mem, s.blocks) && Updates(h, r, s, t, n, broken)
    ensures Good(r) && View(r) == n && PayloadKept(h.mem, r.mem, Common(View(h), View(r)))
    ensures ExactlyBreaks(h, r, broken)
    ensures View(h) == Live(h.mem, s.blocks)
  {
    hide Wf, Ruled, PayloadKept, Live, Common, Keeps;
    WfWalk(h, s);
    WfWalk(r, t);
    forall rule | Keeps(h, rule) ensures Keeps(r, rule) <==> rule !in broken {
      assert Ruled(h.mem, s.blocks, rule);
    }
  }

  lemma Unchanged(h: Heap, op: Op, err: Err)
    requires Good(h) && Allowed(View(h), op, View(h), Null, err) && Breaks(h, op) == {}
    ensures StepKeeps(h, op, Alloc(h, Null, err))
  {
    hide Allowed, Good, View, Keeps, Moved, Breaks;
    SameMemory(h.mem, Common(View(h), View(h)));
    SameMemory(h.mem, Common(View(h), View(h)) - {if op.DoWrite? then op.b else 0});
  }

  /** A non-moving step described by `Updates`. */
  lemma Updated(h: Heap, op: Op, r: Alloc, s: Shape, t: Shape, n: map<nat, Entry>)
    requires Wf(h, s) && InRange(h.mem, s.blocks) && Updates(h, r.h, s, t, n, Breaks(h, op)) && !op.DoWrite?
    requires r.ptr.At? && op.DoRealloc? ==> r.ptr == At(op.b + 1)
    requires Allowed(Live(h.mem, s.blocks), op, n, r.ptr, r.err)
    ensures StepKeeps(h, op, r)
  {
    hide Wf, Updates, Allowed, Good, View, Keeps, Live, PayloadKept, Common, Ruled, Moved, Breaks;
    FromUpdates(h, r.h, s, t, n, Breaks(h, op));
    var kept := Common(View(h), View(r.h));
    assert kept - {} == kept;
  }

  lemma StepMalloc(h: Heap, op: Op)
    requires Good(h) && Legal(h, op) && op.DoMalloc?
    ensures StepKeeps(h, op, Apply(h, op))
  {
    hide Wf, Updates, View, Good, Live, FindFor, BlockUnits, MallocInternal, StepKeeps, Fits;
    var s := ShapeOf(h);
    if op.uid == 0 || op.size == 0 {
      MallocTrivial(h, op.size, op.uid, op.dtype);
      Unchanged(h, op, if op.uid == 0 then UidInvalid else Ok);
    } else {
      MallocRefines(h, s, op.size, op.uid, op.dtype);
      var a := Malloc(h, op.size, op.uid, op.dtype);
      if a.ptr.Null? {
        Unchanged(h, op, OutOfMemory);
      } else {
        var t, n :| Updates(h, a.h, s, t, n, {})
          && Gains(Live(h.mem, s.blocks), n, a.ptr.u - 1, BlockUnits(op.size), op.uid, op.dtype);
        Updated(h, op, a, s, t, n);
      }
    }
  }

  lemma MallocTrivial(h: Heap, size: nat, uid: nat, dtype: nat)
    requires uid == 0 || size == 0
    ensures Malloc(h, size, uid, dtype) == Alloc(h, Null, if uid == 0 then UidInvalid else Ok)
  {
  }

  /** An address that is no header is refused without effect. */
  lemma Refused(h: Heap, b: nat, uid: nat, size: nat, dc: bool)
    requires CheckBlock(h, b) != Ok
    ensures Free(h, b, uid) == Done(h, if uid == 0 then UidInvalid else CheckBlock(h, b))
    ensures Link(h, b, uid) == Done(h, if uid == 0 then UidInvalid else CheckBlock(h, b))
    ensures FreeDc(h, b, uid) == Done(h, if uid == 0 then UidInvalid else CheckBlock(h, b))
    ensures SetDc(h, b, dc) == Done(h, if b >= |h.mem| then InvalidPtr else CheckBlock(h, b))
    ensures Realloc(h, b, size, uid) == Alloc(h, Null, if uid == 0 then UidInvalid else CheckBlock(h, b))
    ensures CheckBlock(h, b) == NotAllocated || CheckBlock(h, b) == BlockCorrupted
  {
    hide DropUid, Release, UidFind, UidCount, TryInPlace, Move;
  }

  lemma StepRefused(h: Heap, op: Op)
    requires Good(h) && !op.DoMalloc? && !op.DoWrite? && op.b !in View(h) && CheckBlock(h, op.b) != Ok
    ensures StepKeeps(h, op, Apply(h, op))
  {
    hide View, Good, CheckBlock, StepKeeps, Free, Link, FreeDc, SetDc, Realloc, BlockUnits;
    Refused(h, op.b, if op.DoSetDc? then 0 else op.uid, if op.DoRealloc? then op.size else 0, op.DoSetDc? && op.dc);
    Unchanged(h, op, Apply(h, op).err);
  }

  lemma StepOwner(h: Heap, op: Op)
    requires Good(h) && (op.DoFree? || op.DoLink? || op.DoFreeDc? || op.DoSetDc?) && op.b in Walk(h.mem, 0)
    ensures StepKeeps(h, op, Apply(h, op))
  {
    hide Wf, Updates, View, Good, Live, StepKeeps, Free, Link, FreeDc, SetDc, FreeSpec, FreeErr, LinkSpec, LinkErr,
      FreeDcSpec, SetDcSpec, BrokenByFreeing;
    var s := ShapeOf(h);
    var m := Live(h.mem, s.blocks);
    match op
    case DoFree(b, uid) => StepFree(h, op, s, b, uid);
    case DoLink(b, uid) =>
      LinkCorrect(h, s, b, uid);
      Updated(h, op, Apply(h, op), s, s, LinkSpec(m, b, uid));
    case DoFreeDc(b, uid) =>
      FreeDcCorrect(h, s, b, uid);
      Updated(h, op, Apply(h, op), s, s, FreeDcSpec(m, b, uid));
    case DoSetDc(b, dc) =>
      SetDcCorrect(h, s, b, dc);
      Updated(h, op, Apply(h, op), s, s, SetDcSpec(m, b, dc));
  }

  /** tlsf_free, also by way of tlsf_realloc to size 0. */
  lemma StepFree(h: Heap, op: Op, s: Shape, b: nat, uid: nat)
    requires Wf(h, s) && InRange(h.mem, s.blocks) && b in s.blocks && Walk(h.mem, 0) == s.blocks
    requires op == DoFree(b, uid) || op == DoRealloc(b, 0, uid)
    ensures StepKeeps(h, op, Apply(h, op))
  {
    hide Wf, Updates, View, Good, Live, StepKeeps, Free, FreeSpec, FreeErr, BrokenByFreeing, Walk;
    var m := Live(h.mem, s.blocks);
    FreeRefines(h, s, b, uid);
    var t :| Updates(h, Free(h, b, uid).h, s, t, FreeSpec(m, b, uid), BrokenByFree(h, s.blocks, b, uid));
    WfWalk(h, s);
    FreeingBreaks(h, s, b, uid);
    Updated(h, op, Apply(h, op), s, t, FreeSpec(m, b, uid));
  }

  lemma FreeingBreaks(h: Heap, s: Shape, b: nat, uid: nat)
    requires InRange(h.mem, s.blocks) && b in s.blocks && Walk(h.mem, 0) == s.blocks && View(h) == Live(h.mem, s.blocks)
    ensures BrokenByFreeing(h, b, uid) == BrokenByFree(h, s.blocks, b, uid)
  {
    hide FreeBreaks, Walk;
  }

  lemma StepRealloc(h: Heap, op: Op)
    requires Good(h) && Legal(h, op) && op.DoRealloc? && op.b in Walk(h.mem, 0)
    ensures StepKeeps(h, op, Apply(h, op))
  {
    hide Wf, Updates, View, Good, Live, StepKeeps, Free, Realloc, FreeSpec, FreeErr, Fits, BlockUnits;
    var s := ShapeOf(h);
    var m := Live(h.mem, s.blocks);
    var b, uid, size := op.b, op.uid, op.size;
    if size == 0 {
      StepFree(h, op, s, b, uid);
    } else if ReallocErr(m, b, uid) != Ok {
      ReallocRefused(h, s, b, size, uid);
      Unchanged(h, op, ReallocErr(m, b, uid));
    } else if FitsInPlace(h, b, BlockUnits(size)) {
      StepStays(h, op, s);
    } else {
      StepMoves(h, op, s);
    }
  }

  lemma StepStays(h: Heap, op: Op, s: Shape)
    requires Good(h) && op.DoRealloc? && op.size > 0
    requires Wf(h, s) && InRange(h.mem, s.blocks) && op.b in s.blocks && op.b < |h.mem|
    requires ReallocErr(Live(h.mem, s.blocks), op.b, op.uid) == Ok && FitsInPlace(h, op.b, BlockUnits(op.size))
    ensures StepKeeps(h, op, Apply(h, op))
  {
    hide Wf, Updates, View, Good, Live, Realloc, BlockUnits, FitsInPlace, BrokenInPlace, ReallocErr, StepKeeps;
    WfWalk(h, s);
    ReallocStays(h, s, op.b, op.size, op.uid);
    var a := Realloc(h, op.b, op.size, op.uid);
    var t, n :| Updates(h, a.h, s, t, n, BrokenInPlace(h, op.b, BlockUnits(op.size)))
      && Resizes(Live(h.mem, s.blocks), n, op.b, BlockUnits(op.size));
    Updated(h, op, a, s, t, n);
  }

  lemma StepMoves(h: Heap, op: Op, s: Shape)
    requires Good(h) && op.DoRealloc? && op.size > 0 && Fits(h, op.size)
    requires Wf(h, s) && InRange(h.mem, s.blocks) && op.b in s.blocks && op.b < |h.mem|
    requires ReallocErr(Live(h.mem, s.blocks), op.b, op.uid) == Ok && !FitsInPlace(h, op.b, BlockUnits(op.size))
    ensures StepKeeps(h, op, Apply(h, op))
  {
    hide Wf, Updates, View, Good, Live, Ruled, Realloc, BlockUnits, FitsInPlace, ReallocErr, FindFor,
      PayloadKept, Common, Moved, Staged, Core, BrokenBy, ExactlyBreaks, RulesKept;
    WfWalk(h, s);
    ReallocMoves(h, s, op.b, op.size, op.uid);
    var a, g := Realloc(h, op.b, op.size, op.uid), h;
    if a.ptr.Null? {
      Unchanged(h, op, OutOfMemory);
    } else {
      var to := a.ptr.u - 1;
      g := Staged(h, op.b, op.size, op.uid);
      var t, n, mid: Shape :| Core(g, mid) && RulesKept(h.mem, g.mem, s.blocks, mid.blocks)
        && Updates(h, a.h, s, t, n, BrokenBy(g, mid.blocks, op.b))
        && Rehouses(Live(h.mem, s.blocks), n, op.b, to, BlockUnits(op.size))
        && Moved(h.mem, a.h.mem, op.b, to, Min(h.mem[op.b].size, BlockUnits(op.size)));
      CoreWalk(g, mid);
      FromUpdates(h, a.h, s, t, n, BrokenBy(g, mid.blocks, op.b));
      var kept := Common(View(h), View(a.h));
      assert kept - {} == kept;
      assert to != op.b;
    }
  }

  lemma CoreWalk(h: Heap, s: Shape)
    requires Core(h, s)
    ensures Walk(h.mem, 0) == s.blocks
  {
    hide Lists, Bits, PrevSizes, Clients, Walk, Headers, Chained, Apart;
    WalkIsTiling(h.mem, s.blocks);
  }

  lemma StepWrite(h: Heap, op: Op)
    requires Good(h) && Legal(h, op) && op.DoWrite?
    ensures StepKeeps(h, op, Apply(h, op))
  {
    hide Core, View, Ruled, PayloadKept, Live, Common, Good;
    var s := ShapeOf(h);
    var g := Put(h, op.u, op.l);
    LiveHeader(h, s, op.b);
    BlockEnd(h, s, op.b);
    PayloadEdit(h, g, s, op.b);
    WfWalk(h, s);
    WfWalk(g, s);
    CommonSelf(View(h));
    KeptFewer(h.mem, g.mem, View(h) - {op.b}, Common(View(h), View(g)) - {op.b});
    assert Breaks(h, op) == {};
  }

  lemma NotRealloc(h: Heap, op: Op)
    requires !op.DoRealloc?
    ensures !Loosens(h, op)
  {
  }

  lemma BlockEnd(h: Heap, s: Shape, b: nat)
    requires Wf(h, s) && b in s.blocks && b < |h.mem|
    ensures b + h.mem[b].size <= |h.mem|
  {
    hide Lists, Bits, PrevSizes, Clients;
  }

  lemma CommonSelf(m: map<nat, Entry>)
    ensures Common(m, m) == m
  {
  }

  lemma StepKept(h: Heap, op: Op)
    requires Good(h) && Legal(h, op)
    ensures StepKeeps(h, op, Apply(h, op))
  {
    hide Good, StepKeeps, Apply, CheckBlock, Fits, InPlaceOrFits, ReallocErr, Walk;
    if op.DoMalloc? {
      StepMalloc(h, op);
    } else if op.DoWrite? {
      StepWrite(h, op);
    } else if op.b !in Walk(h.mem, 0) {
      StepRefused(h, op);
    } else if op.DoRealloc? {
      StepRealloc(h, op);
    } else {
      StepOwner(h, op);
    }
  }

  // ---------------------------------------------------------------- when memory is refused

  /** The search finds nothing exactly when there is nothing. */
  lemma RoomExactly(h: Heap, s: Shape, size: nat)
    requires Wf(h, s) && InRange(h.mem, s.blocks) && Walk(h.mem, 0) == s.blocks && Fits(h, size)
    ensures FindFor(h, BlockUnits(size)).Null? <==> NoRoom(h, BlockUnits(size))
  {
    hide Core, FindFor, BlockUnits, Walk;
    UnitsPositive(size);
    FreeInWalk(h, s);
    if FindFor(h, BlockUnits(size)).Null? {
      NothingFits(h, s, BlockUnits(size));
    } else {
      FoundIsFree(h, s, BlockUnits(size));
      assert FindFor(h, BlockUnits(size)).u in Walk(h.mem, 0);
    }
  }

  lemma FreeInWalk(h: Heap, s: Shape)
    requires Wf(h, s) && InRange(h.mem, s.blocks)
    ensures forall b :: b in s.free <==> b in s.blocks && h.mem[b].free
  {
    FreeFlags(h, s);
  }

  lemma MallocRoom(h: Heap, op: Op)
    requires Good(h) && Legal(h, op) && op.DoMalloc? && op.uid != 0 && op.size > 0
    ensures Apply(h, op).err == OutOfMemory <==> NoRoom(h, BlockUnits(op.size))
  {
    hide Wf, Updates, View, Live, FindFor, BlockUnits, MallocInternal, Fits, Walk, NoRoom, Malloc;
    var s := ShapeOf(h);
    MallocRefines(h, s, op.size, op.uid, op.dtype);
    RoomExactly(h, s, op.size);
  }

  lemma ReallocRoom(h: Heap, op: Op)
    requires Good(h) && Legal(h, op) && op.DoRealloc? && op.size > 0 && ReallocErr(View(h), op.b, op.uid) == Ok
    ensures Apply(h, op).err == OutOfMemory <==> OutOfRoom(h, op)
  {
    hide Wf, Updates, View, Live, FindFor, BlockUnits, Fits, Walk, NoRoom, FitsInPlace, Realloc, BrokenInPlace, Staged,
      BrokenBy, Core, RulesKept;
    var s := ShapeOf(h);
    LiveIsBlock(h, op.b, op.uid);
    if FitsInPlace(h, op.b, BlockUnits(op.size)) {
      ReallocStays(h, s, op.b, op.size, op.uid);
    } else {
      ReallocMoves(h, s, op.b, op.size, op.uid);
      RoomExactly(h, s, op.size);
    }
  }

  lemma StepRoom(h: Heap, op: Op)
    requires Good(h) && Legal(h, op) && StepKeeps(h, op, Apply(h, op))
    ensures Apply(h, op).err == OutOfMemory <==> OutOfRoom(h, op)
  {
    hide Good, View, Carries, ExactlyBreaks, Gains, Resizes, Rehouses, NoRoom, Legal, FreeSpec,
      LinkSpec, FreeDcSpec, SetDcSpec, FitsInPlace, BlockUnits, Malloc, Realloc, Free, Link, FreeDc, SetDc;
    match op
    case DoMalloc(size, uid, _) => if uid != 0 && size > 0 { MallocRoom(h, op); }
    case DoRealloc(b, size, uid) => if size > 0 && ReallocErr(View(h), b, uid) == Ok { ReallocRoom(h, op); }
    case _ =>
  }

  /**
   * One step: the invariant is kept, the client's map takes an allowed step, no other payload
   * changes, of the two rules of a coalesced heap that hold exactly those in Breaks are lost, and
   * memory is refused exactly when neither the block itself nor any free block has room.
   */
  lemma StepCorrect(h: Heap, op: Op)
    requires Good(h) && Legal(h, op)
    ensures StepOk(h, op, Apply(h, op))
  {
    hide Good, StepKeeps, Apply, Legal, OutOfRoom;
    StepKept(h, op);
    StepRoom(h, op);
  }

  /** A good heap that is asked for something legal answers by an allowed step. */
  ghost predicate Serves(h: Heap, op: Op, r: Alloc) {
    Good(h) && Legal(h, op) ==> StepOk(h, op, r)
  }

  lemma AlwaysServes(h: Heap, op: Op)
    ensures Serves(h, op, Apply(h, op))
  {
    hide Good, Legal, StepOk, Apply;
    if Good(h) && Legal(h, op) { StepCorrect(h, op); }
  }

  // ---------------------------------------------------------------- runs

  function After(h: Heap, ops: seq<Op>): Heap
    decreases |ops|
  {
    if ops == [] then h else After(Apply(h, ops[0]).h, ops[1..])
  }

  ghost predicate LegalRun(h: Heap, ops: seq<Op>)
    decreases |ops|
  {
    ops == [] || (Legal(h, ops[0]) && LegalRun(Apply(h, ops[0]).h, ops[1..]))
  }

  datatype Reply = Reply(ptr: Ptr, err: Err)

  /** What the client gets back, step by step. */
  function Replies(h: Heap, ops: seq<Op>): seq<Reply>
    decreases |ops|
  {
    if ops == [] then [] else
      var r := Apply(h, ops[0]);
      [Reply(r.ptr, r.err)] + Replies(r.h, ops[1..])
  }

  /** A run of the map that gives these replies and ends in n. */
  ghost predicate AllowedRun(m: map<nat, Entry>, ops: seq<Op>, replies: seq<Reply>, n: map<nat, Entry>)
    decreases |ops|
  {
    if ops == [] then replies == [] && n == m
    else
      && replies != []
      && exists k {:trigger Allowed(m, ops[0], k, replies[0].ptr, replies[0].err)} ::
           && Allowed(m, ops[0], k, replies[0].ptr, replies[0].err)
           && AllowedRun(k, ops[1..], replies[1..], n)
  }

  /** Along the run memory is refused exactly when there is no room. */
  ghost predicate RefusedOnlyWhenFull(h: Heap, ops: seq<Op>)
    decreases |ops|
  {
    ops == [] ||
    (&& (Apply(h, ops[0]).err == OutOfMemory <==> OutOfRoom(h, ops[0]))
     && RefusedOnlyWhenFull(Apply(h, ops[0]).h, ops[1..]))
  }

  ghost predicate NeverBreaks(h: Heap, ops: seq<Op>, rule: Rule)
    decreases |ops|
  {
    ops == [] || (rule !in Breaks(h, ops[0]) && NeverBreaks(Apply(h, ops[0]).h, ops[1..], rule))
  }

  /** The whole allocator: every legal run keeps the invariant and is a run of the map. */
  lemma {:induction false} RunCorrect(h: Heap, ops: seq<Op>)
    requires Good(h) && LegalRun(h, ops)
    ensures Good(After(h, ops)) && |After(h, ops).mem| == |h.mem|
    ensures AllowedRun(View(h), ops, Replies(h, ops), View(After(h, ops))) && RefusedOnlyWhenFull(h, ops)
    ensures forall rule :: Keeps(h, rule) && NeverBreaks(h, ops, rule) ==> Keeps(After(h, ops), rule)
    decreases |ops|
  {
    hide Good, Apply, Legal, Allowed, View, Keeps, Breaks, Common, Moved, OutOfRoom;
    if ops != [] {
      var r := Apply(h, ops[0]);
      StepCorrect(h, ops[0]);
      RunCorrect(r.h, ops[1..]);
      AllowedFirst(View(h), ops, Reply(r.ptr, r.err), View(r.h), Replies(r.h, ops[1..]), View(After(h, ops)));
    }
  }

  lemma AllowedFirst(m: map<nat, Entry>, ops: seq<Op>, first: Reply, k: map<nat, Entry>,
                     rest: seq<Reply>, n: map<nat, Entry>)
    requires ops != [] && Allowed(m, ops[0], k, first.ptr, first.err) && AllowedRun(k, ops[1..], rest, n)
    ensures AllowedRun(m, ops, [first] + rest, n)
  {
    hide Allowed;
    var replies := [first] + rest;
    assert replies[1..] == rest;
    assert Allowed(m, ops[0], k, replies[0].ptr, replies[0].err);
  }

  // ---------------------------------------------------------------- coalesced heaps

  /** In a coalesced heap giving a block back breaks nothing. */
  lemma TightRelease(h: Heap, blocks: set<nat>, b: nat)
    requires b < |h.mem| && Ruled(h.mem, blocks, Separated) && Ruled(h.mem, blocks, Announced)
    ensures BrokenBy(h, blocks, b) == {}
  {
    hide Ruled;
    if !h.mem[b].prevFree && LeftFree(h.mem, blocks, b) {
      var x :| x in blocks && x < |h.mem| && x + h.mem[x].size == b && h.mem[x].free;
      RuledAt(h.mem, blocks, x, Announced);
    }
    if MergesBack(h, b) && LeftFree(h.mem, blocks, Lo(h, b)) {
      var x :| x in blocks && x < |h.mem| && x + h.mem[x].size == Lo(h, b) && h.mem[x].free;
      RuledAt(h.mem, blocks, x, Separated);
    }
  }

  /** In a coalesced heap only an in-place cut beside a free block breaks a rule, the separation. */
  lemma TightBreaks(h: Heap, op: Op)
    requires Good(h) && Legal(h, op) && Tight(h)
    ensures Breaks(h, op) == if Loosens(h, op) then {Separated} else {}
  {
    hide Good, View, Legal, Walk, Ruled, BrokenBy, BlockUnits, ReallocErr, FreeErr, FitsInPlace, BrokenByMoving,
      CutsBesideFree;
    match op
    case DoFree(b, uid) => if b < |h.mem| { TightRelease(h, Walk(h.mem, 0), b); }
    case DoRealloc(b, size, uid) =>
      if b < |h.mem| {
        TightRelease(h, Walk(h.mem, 0), b);
        if size > 0 && ReallocErr(View(h), b, uid) == Ok {
          if FitsInPlace(h, b, BlockUnits(size)) { CutFits(h, b, BlockUnits(size)); } else { TightMoving(h, op); }
        }
      }
    case _ =>
  }

  lemma CutFits(h: Heap, b: nat, needed: nat)
    requires b < |h.mem|
    ensures CutsBesideFree(h, b, needed) ==> FitsInPlace(h, b, needed)
  {
  }

  lemma TightMoving(h: Heap, op: Op)
    requires Good(h) && Legal(h, op) && Tight(h) && op.DoRealloc? && op.size > 0 && op.b < |h.mem|
    requires ReallocErr(View(h), op.b, op.uid) == Ok && !FitsInPlace(h, op.b, BlockUnits(op.size))
    ensures BrokenByMoving(h, op.b, op.size, op.uid) == {} && !Loosens(h, op)
  {
    hide Wf, Updates, View, Live, Ruled, Realloc, BlockUnits, FitsInPlace, FindFor, PayloadKept, Common, Moved, Staged,
      Core, BrokenBy, Walk, Fits;
    var s := ShapeOf(h);
    CutFits(h, op.b, BlockUnits(op.size));
    LiveIsBlock(h, op.b, op.uid);
    ReallocMoves(h, s, op.b, op.size, op.uid);
    var a := Realloc(h, op.b, op.size, op.uid);
    if a.ptr.At? {
      var g := Staged(h, op.b, op.size, op.uid);
      var t, n, mid: Shape :| Core(g, mid) && RulesKept(h.mem, g.mem, s.blocks, mid.blocks)
        && Updates(h, a.h, s, t, n, BrokenBy(g, mid.blocks, op.b));
      CoreWalk(g, mid);
      assert Ruled(h.mem, s.blocks, Separated) && Ruled(h.mem, s.blocks, Announced);
      TightRelease(g, mid.blocks, op.b);
    }
  }

  lemma LiveIsBlock(h: Heap, b: nat, uid: nat)
    requires ReallocErr(View(h), b, uid) == Ok
    ensures b in Walk(h.mem, 0)
  {
    hide Walk;
  }

  ghost predicate NeverLoosens(h: Heap, ops: seq<Op>)
    decreases |ops|
  {
    ops == [] || (!Loosens(h, ops[0]) && NeverLoosens(Apply(h, ops[0]).h, ops[1..]))
  }

  /** Without a cut beside a free block a coalesced heap stays coalesced. */
  lemma {:induction false} TightRun(h: Heap, ops: seq<Op>)
    requires Good(h) && LegalRun(h, ops) && Tight(h) && NeverLoosens(h, ops)
    ensures Tight(After(h, ops))
    decreases |ops|
  {
    hide Good, Apply, Legal, Allowed, View, Keeps, Breaks, Loosens, Common, Moved, PayloadKept;
    if ops != [] {
      StepCorrect(h, ops[0]);
      TightBreaks(h, ops[0]);
      TightRun(Apply(h, ops[0]).h, ops[1..]);
    }
  }

  /** Runs from tlsf_create: the map starts empty and used_bytes is the sum of the live payloads. */
  lemma FreshRunCorrect(n: nat, ops: seq<Op>)
    requires MIN_BLOCK <= n < MAX_UNITS && LegalRun(Create(n), ops)
    ensures var r := After(Create(n), ops);
            && Good(r) && |r.mem| == n
            && AllowedRun(map[], ops, Replies(Create(n), ops), View(r)) && RefusedOnlyWhenFull(Create(n), ops)
            && r.used == Total(View(r)) && r.log == []
            && (NeverLoosens(Create(n), ops) ==> Tight(r))
    ensures (forall i :: 0 <= i < |ops| ==> !ops[i].DoRealloc?) ==> NeverLoosens(Create(n), ops)
  {
    hide Wf, Good, Apply, Legal, View, Keeps, Ruled, Live, AllowedRun, Replies, LegalRun, Total, After, NeverLoosens,
      RefusedOnlyWhenFull;
    CreateWf(n);
    WfWalk(Create(n), CREATED);
    RunCorrect(Create(n), ops);
    UsedIsTotal(After(Create(n), ops));
    if NeverLoosens(Create(n), ops) { TightRun(Create(n), ops); }
    if forall i :: 0 <= i < |ops| ==> !ops[i].DoRealloc? { WithoutRealloc(Create(n), ops); }
  }

  lemma {:induction false} WithoutRealloc(h: Heap, ops: seq<Op>)
    requires forall i :: 0 <= i < |ops| ==> !ops[i].DoRealloc?
    ensures NeverLoosens(h, ops)
    decreases |ops|
  {
    hide Apply;
    if ops != [] {
      NotRealloc(h, ops[0]);
      WithoutRealloc(Apply(h, ops[0]).h, ops[1..]);
    }
  }

  lemma LegalFree(h: Heap, b: nat, uid: nat)
    requires b in View(h)
    ensures Legal(h, DoFree(b, uid)) && Legal(h, DoSetDc(b, true))
  {
  }

  /** Requests whose block size is a class lower bound are legal on every good heap. */
  lemma AlignedIsLegal(h: Heap, size: nat, uid: nat, dtype: nat)
    requires Good(h) && (ClassAligned(BlockUnits(size)) || BlockUnits(size) > MAX_UNITS)
    ensures Legal(h, DoMalloc(size, uid, dtype))
  {
    hide Wf, Fits, ClassAligned, BlockUnits;
    var s :| Wf(h, s);
    AlignedFits(h, s, size);
  }

  // ---------------------------------------------------------------- payloads over a run

  /** The client neither writes nor reallocates b, and b stays live. */
  ghost predicate LeavesAlone(h: Heap, ops: seq<Op>, b: nat)
    decreases |ops|
  {
    && b in View(h)
    && (ops == [] ||
        (!((ops[0].DoWrite? || ops[0].DoRealloc?) && ops[0].b == b) && LeavesAlone(Apply(h, ops[0]).h, ops[1..], b)))
  }

  /** A block that the client leaves alone keeps its size and every payload byte through any run. */
  lemma {:induction false} RunKeepsPayload(h: Heap, ops: seq<Op>, b: nat)
    requires Good(h) && LegalRun(h, ops) && LeavesAlone(h, ops, b)
    ensures |After(h, ops).mem| == |h.mem| && b in View(After(h, ops))
    ensures View(After(h, ops))[b].size == View(h)[b].size
    ensures forall u :: b < u < b + View(h)[b].size && u < |h.mem| ==> After(h, ops).mem[u] == h.mem[u]
    decreases |ops|
  {
    hide Good, Apply, Legal, Allowed, View, Keeps, Breaks, Moved;
    if ops != [] {
      var r := Apply(h, ops[0]);
      StepCorrect(h, ops[0]);
      SizeStays(View(h), ops[0], View(r.h), r.ptr, r.err, b);
      RunKeepsPayload(r.h, ops[1..], b);
      var c := Common(View(h), View(r.h)) - (if ops[0].DoWrite? then {ops[0].b} else {});
      assert b in c && c[b].size == View(h)[b].size;
    }
  }

  lemma SizeStays(m: map<nat, Entry>, op: Op, n: map<nat, Entry>, ptr: Ptr, err: Err, b: nat)
    requires Allowed(m, op, n, ptr, err) && b in m && b in n && !(op.DoRealloc? && op.b == b)
    ensures n[b].size == m[b].size
  {
  }

  // ---------------------------------------------------------------- releasing everything

  datatype Hold = Hold(b: nat, uid: nat)

  ghost function Holds(m: map<nat, Entry>): iset<Hold> {
    iset p: Hold | p.b in m && p.uid in m[p.b].owners
  }

  function Releases(holds: seq<Hold>): seq<Op> {
    seq(|holds|, i requires 0 <= i < |holds| => DoFree(holds[i].b, holds[i].uid))
  }

  ghost predicate Once(holds: seq<Hold>) {
    forall i, j :: 0 <= i < j < |holds| ==> holds[i] != holds[j]
  }

  /** Every live block has an owner, and 0 is nobody. */
  ghost predicate Held(m: map<nat, Entry>) {
    forall b :: b in m ==> m[b].owners != {} && 0 !in m[b].owners
  }

  lemma ViewHeld(h: Heap)
    requires Good(h)
    ensures Held(View(h))
  {
    hide Lists, Bits, Tiled, PrevSizes, Total, Walk;
    var s := ShapeOf(h);
    forall b | b in View(h) ensures View(h)[b].owners != {} && 0 !in View(h)[b].owners {
      assert ClientOk(h.mem, s.free, b);
    }
  }

  lemma ReleaseOne(m: map<nat, Entry>, p: Hold)
    requires p in Holds(m) && Held(m)
    ensures Holds(FreeSpec(m, p.b, p.uid)) == Holds(m) - iset{p}
  {
    var n := FreeSpec(m, p.b, p.uid);
    forall q: Hold ensures q in Holds(n) <==> q in Holds(m) && q != p {
    }
  }

  lemma SomethingHeld(m: map<nat, Entry>)
    requires Held(m) && m != map[]
    ensures exists p: Hold :: p in Holds(m)
  {
    var b :| b in m;
    var u :| u in m[b].owners;
    assert Hold(b, u) in Holds(m);
  }

  /**
   * Releasing every owner of every block, in any order, gives back one free block that spans the
   * heap, with nothing in use.
   */
  lemma {:induction false} ReleaseEverything(h: Heap, holds: seq<Hold>)
    requires Good(h) && Tight(h) && Once(holds)
    requires forall p: Hold :: p in holds <==> p in Holds(View(h))
    ensures LegalRun(h, Releases(holds))
    ensures var r := After(h, Releases(holds));
            && |r.mem| == |h.mem| > 0 && Walk(r.mem, 0) == {0}
            && r.mem[0].free && r.mem[0].size == |h.mem| && r.used == 0
    decreases |holds|
  {
    hide Good, Apply, Allowed, View, Keeps, Breaks, Loosens, Common, Walk, Moved;
    var ops := Releases(holds);
    ViewHeld(h);
    if holds == [] {
      if View(h) != map[] { SomethingHeld(View(h)); }
      EmptyIsWhole(h);
    } else {
      var p := holds[0];
      assert p in Holds(View(h));
      assert Legal(h, ops[0]);
      StepCorrect(h, ops[0]);
      NotRealloc(h, ops[0]);
      TightBreaks(h, ops[0]);
      var g := Apply(h, ops[0]).h;
      FreeStep(View(h), ops[0], View(g), Apply(h, ops[0]).ptr, Apply(h, ops[0]).err);
      ReleaseOne(View(h), p);
      assert ops[1..] == Releases(holds[1..]);
      forall q: Hold ensures q in holds[1..] <==> q in Holds(View(g)) {
        assert q in holds <==> q == p || q in holds[1..];
      }
      ReleaseEverything(g, holds[1..]);
    }
  }

  lemma FreeStep(m: map<nat, Entry>, op: Op, n: map<nat, Entry>, ptr: Ptr, err: Err)
    requires op.DoFree? && Allowed(m, op, n, ptr, err)
    ensures n == FreeSpec(m, op.b, op.uid)
  {
  }
}
