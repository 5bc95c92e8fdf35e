/** The bounded multi-producer multi-consumer queue as interleaved atomic steps (src/lf_mpmc_queue.c). */
module Mpmc {

  datatype Cell = Cell(turn: nat, data: nat)

  /** What a call returned; a dequeued item carries its value. */
  datatype Ret = Enqueued | Full | Item(v: nat) | Empty | Found | NotFound

  /** Where a thread stands: the atomic step it takes next, with its local variables. */
  datatype Pc =
    | Idle
    | Done(ret: Ret)
    | EnqLoad(d: nat) | EnqSeq(pos: nat, d: nat) | EnqCas(pos: nat, d: nat)
    | EnqWrite(pos: nat, d: nat) | EnqPublish(pos: nat, d: nat)
    | DeqLoad | DeqSeq(pos: nat) | DeqCas(pos: nat) | DeqRead(pos: nat) | DeqRelease(pos: nat, v: nat)
    | FindTail(ptr: nat) | FindHead(ptr: nat, from: nat)
    | FindSeq(ptr: nat, pos: nat, end: nat) | FindData(ptr: nat, pos: nat, end: nat)
    | FindAgain(ptr: nat, pos: nat, end: nat, v: nat) | FindNow(ptr: nat, pos: nat, end: nat)

  datatype Put = Put(tid: nat, d: nat)

  /** Shared words, threads, and the history of both claim orders. */
  datatype Queue = Queue(
    head: nat, tail: nat, buf: seq<Cell>, pcs: map<nat, Pc>, puts: seq<Put>, takes: seq<nat>)

  datatype Call = Enqueue(d: nat) | Dequeue | Find(ptr: nat)
  datatype Move = Start(tid: nat, call: Call) | Run(tid: nat, spurious: bool)

  // ---------------------------------------------------------------- steps

  /** pos & mask: the remainder of p by the capacity n. */
  function Slot(n: nat, p: nat): (i: nat)
    requires n > 0
    ensures i < n
    decreases p
  {
    if p < n then p else Slot(n, p - n)
  }

  function At(q: Queue, tid: nat): Pc {
    if tid in q.pcs then q.pcs[tid] else Idle
  }

  function Goto(q: Queue, tid: nat, pc: Pc): Queue { q.(pcs := q.pcs[tid := pc]) }

  function CellOf(q: Queue, p: nat): Cell
    requires |q.buf| > 0
  {
    q.buf[Slot(|q.buf|, p)]
  }

  function SetCell(q: Queue, p: nat, c: Cell): Queue
    requires |q.buf| > 0
  {
    q.(buf := q.buf[Slot(|q.buf|, p) := c])
  }

  function Init(n: nat): (q: Queue)
    ensures |q.buf| == n
  {
    Queue(0, 0, seq(n, i requires 0 <= i < n => Cell(i, 0)), map[], [], [])
  }

  function Begin(call: Call): Pc {
    match call
    case Enqueue(d) => EnqLoad(d)
    case Dequeue => DeqLoad
    case Find(ptr) => if ptr == 0 then Done(NotFound) else FindTail(ptr)
  }

  function EnqStep(q: Queue, tid: nat, spurious: bool): Queue
    requires |q.buf| > 0
  {
    match At(q, tid)
    case EnqLoad(d) => Goto(q, tid, EnqSeq(q.head, d))
    case EnqSeq(pos, d) =>
      var s := CellOf(q, pos).turn;
      Goto(q, tid, if s == pos then EnqCas(pos, d) else if s < pos then Done(Full) else EnqLoad(d))
    case EnqCas(pos, d) =>
      if q.head == pos && !spurious then
        Goto(q.(head := pos + 1, puts := q.puts + [Put(tid, d)]), tid, EnqWrite(pos, d))
      else Goto(q, tid, EnqSeq(q.head, d))
    case EnqWrite(pos, d) => Goto(SetCell(q, pos, CellOf(q, pos).(data := d)), tid, EnqPublish(pos, d))
    case EnqPublish(pos, d) => Goto(SetCell(q, pos, CellOf(q, pos).(turn := pos + 1)), tid, Done(Enqueued))
    case _ => q
  }

  function DeqStep(q: Queue, tid: nat, spurious: bool): Queue
    requires |q.buf| > 0
  {
    match At(q, tid)
    case DeqLoad => Goto(q, tid, DeqSeq(q.tail))
    case DeqSeq(pos) =>
      var s := CellOf(q, pos).turn;
      Goto(q, tid, if s == pos + 1 then DeqCas(pos) else if s < pos + 1 then Done(Empty) else DeqLoad)
    case DeqCas(pos) =>
      if q.tail == pos && !spurious then
        Goto(q.(tail := pos + 1, takes := q.takes + [tid]), tid, DeqRead(pos))
      else Goto(q, tid, DeqSeq(q.tail))
    case DeqRead(pos) => Goto(q, tid, DeqRelease(pos, CellOf(q, pos).data))
    case DeqRelease(pos, v) =>
      Goto(SetCell(q, pos, CellOf(q, pos).(turn := pos + |q.buf|)), tid, Done(Item(v)))
    case _ => q
  }

  function Next(ptr: nat, pos: nat, end: nat): Pc {
    if pos + 1 >= end then Done(NotFound) else FindSeq(ptr, pos + 1, end)
  }

  function FindPc(q: Queue, pc: Pc): Pc
    requires |q.buf| > 0
  {
    match pc
    case FindTail(ptr) => FindHead(ptr, q.tail)
    case FindHead(ptr, from) =>
      if q.head <= from then Done(NotFound)
      else FindSeq(ptr, if q.head - from > |q.buf| then q.head - |q.buf| else from, q.head)
    case FindSeq(ptr, pos, end) =>
      if CellOf(q, pos).turn != pos + 1 then Next(ptr, pos, end) else FindData(ptr, pos, end)
    case FindData(ptr, pos, end) => FindAgain(ptr, pos, end, CellOf(q, pos).data)
    case FindAgain(ptr, pos, end, v) =>
      if CellOf(q, pos).turn != pos + 1 || v != ptr then Next(ptr, pos, end) else FindNow(ptr, pos, end)
    case FindNow(ptr, pos, end) =>
      if q.tail > pos then Next(ptr, pos, end) else Done(Found)
    case _ => pc
  }

  function Apply(q: Queue, m: Move): (r: Queue)
    requires |q.buf| > 0
    ensures |r.buf| == |q.buf|
  {
    match m
    case Start(tid, call) => if At(q, tid).Idle? || At(q, tid).Done? then Goto(q, tid, Begin(call)) else q
    case Run(tid, spurious) =>
      var pc := At(q, tid);
      if pc.EnqLoad? || pc.EnqSeq? || pc.EnqCas? || pc.EnqWrite? || pc.EnqPublish? then EnqStep(q, tid, spurious)
      else if pc.DeqLoad? || pc.DeqSeq? || pc.DeqCas? || pc.DeqRead? || pc.DeqRelease? then DeqStep(q, tid, spurious)
      else if pc.Idle? then q
      else Goto(q, tid, FindPc(q, pc))
  }

  // ---------------------------------------------------------------- invariant

  predicate Writes(pc: Pc, p: nat) { (pc.EnqWrite? || pc.EnqPublish?) && pc.pos == p }
  predicate Reads(pc: Pc, p: nat) { (pc.DeqRead? || pc.DeqRelease?) && pc.pos == p }

  /** p was the last position claimed in its cell. */
  ghost predicate Window(q: Queue, p: nat) { p < q.head <= p + |q.buf| }

  /** Claimed by a producer that has not published yet. */
  ghost predicate Unpublished(q: Queue, p: nat)
    requires p < |q.puts| && |q.buf| > 0
  {
    CellOf(q, p).turn == p && q.tail <= p && Writes(At(q, q.puts[p].tid), p)
  }

  /** Published: free to be claimed, or claimed by a consumer that has not released it yet. */
  ghost predicate Published(q: Queue, p: nat)
    requires p < |q.puts| && |q.buf| > 0
  {
    && CellOf(q, p) == Cell(p + 1, q.puts[p].d)
    && (p < q.tail ==> p < |q.takes| && Reads(At(q, q.takes[p]), p))
  }

  ghost predicate Released(q: Queue, p: nat)
    requires |q.buf| > 0
  {
    CellOf(q, p).turn == p + |q.buf| && p < q.tail
  }

  ghost predicate CellOk(q: Queue, p: nat)
    requires p < |q.puts| && |q.buf| > 0
  {
    Unpublished(q, p) || Published(q, p) || Released(q, p)
  }

  ghost predicate Cells(q: Queue)
    requires |q.buf| > 0
  {
    && (forall p: nat {:trigger CellOk(q, p)} :: Window(q, p) ==> p < |q.puts| && CellOk(q, p))
    && (forall i {:trigger q.buf[i]} :: q.head <= i < |q.buf| ==> q.buf[i].turn == i)
  }

  /** Position p has been published at some time. */
  ghost predicate Seen(q: Queue, p: nat)
    requires |q.buf| > 0
  {
    p < q.head && CellOf(q, p).turn >= p + 1
  }

  ghost predicate ThreadOk(q: Queue, tid: nat)
    requires |q.buf| > 0 && |q.puts| == q.head && |q.takes| == q.tail
  {
    match At(q, tid)
    case EnqSeq(pos, d) => pos <= q.head
    case EnqCas(pos, d) => pos <= q.head && (pos == q.head ==> CellOf(q, pos).turn == pos)
    case EnqWrite(pos, d) => OwnsPut(q, tid, pos, d)
    case EnqPublish(pos, d) => OwnsPut(q, tid, pos, d) && CellOf(q, pos).data == d
    case DeqSeq(pos) => pos <= q.tail
    case DeqCas(pos) => pos <= q.tail && (pos == q.tail ==> pos < q.head && CellOf(q, pos).turn == pos + 1)
    case DeqRead(pos) => OwnsTake(q, tid, pos)
    case DeqRelease(pos, v) => OwnsTake(q, tid, pos) && v == q.puts[pos].d
    case FindHead(ptr, from) => from <= q.tail
    case FindSeq(ptr, pos, end) => pos < end <= q.head
    case FindData(ptr, pos, end) => pos < end <= q.head && Seen(q, pos)
    case FindAgain(ptr, pos, end, v) =>
      pos < end <= q.head && Seen(q, pos) && (CellOf(q, pos).turn == pos + 1 ==> v == q.puts[pos].d)
    case FindNow(ptr, pos, end) => pos < end <= q.head && Seen(q, pos) && ptr == q.puts[pos].d
    case _ => true
  }

  ghost predicate OwnsPut(q: Queue, tid: nat, pos: nat, d: nat)
    requires |q.buf| > 0 && |q.puts| == q.head
  {
    Window(q, pos) && q.tail <= pos && CellOf(q, pos).turn == pos && q.puts[pos] == Put(tid, d)
  }

  ghost predicate OwnsTake(q: Queue, tid: nat, pos: nat)
    requires |q.buf| > 0 && |q.takes| == q.tail
  {
    Window(q, pos) && pos < q.tail && CellOf(q, pos).turn == pos + 1 && q.takes[pos] == tid
  }

  ghost predicate Counts(q: Queue) {
    && |q.buf| >= 2
    && q.tail <= q.head <= q.tail + |q.buf|
    && |q.puts| == q.head && |q.takes| == q.tail
  }

  ghost predicate Inv(q: Queue) {
    Counts(q) && Cells(q) && forall tid {:trigger ThreadOk(q, tid)} :: ThreadOk(q, tid)
  }

  // ---------------------------------------------------------------- slots

  lemma {:induction false} SlotsDiffer(n: nat, a: nat, b: nat)
    requires a < b < a + n
    ensures Slot(n, a) != Slot(n, b)
    decreases a
  {
    if a >= n { SlotsDiffer(n, a - n, b - n); }
  }

  lemma SlotWraps(n: nat, a: nat)
    requires n > 0
    ensures Slot(n, a + n) == Slot(n, a)
    ensures a < n ==> Slot(n, a) == a
  {
  }

  /** Two positions less than n apart share a cell only if they are equal. */
  lemma SameSlot(n: nat, a: nat, b: nat)
    requires n > 0 && a < b + n && b < a + n
    ensures Slot(n, a) == Slot(n, b) <==> a == b
  {
    if a < b { SlotsDiffer(n, a, b); }
    if b < a { SlotsDiffer(n, b, a); }
  }

  /** The last position claimed in the cell of an old position. */
  lemma {:induction false} Latest(q: Queue, p: nat) returns (r: nat)
    requires Counts(q) && p < q.head
    ensures Window(q, r) && Slot(|q.buf|, r) == Slot(|q.buf|, p) && (r == p || r >= p + |q.buf|)
    decreases q.head - p
  {
    if q.head <= p + |q.buf| { return p; }
    SlotWraps(|q.buf|, p);
    r := Latest(q, p + |q.buf|);
  }

  lemma InitInv(n: nat)
    requires n >= 2
    ensures Inv(Init(n))
  {
  }

  // ---------------------------------------------------------------- steps keep the invariant

  lemma OkAt(q: Queue, tid: nat)
    requires Inv(q)
    ensures ThreadOk(q, tid)
  {
  }

  /** A step that changes no shared word keeps the invariant if the thread's own claim holds. */
  lemma LocalStep(q: Queue, tid: nat, pc: Pc)
    requires Inv(q) && ThreadOk(Goto(q, tid, pc), tid)
    requires forall p :: Writes(At(q, tid), p) ==> Writes(pc, p)
    requires forall p :: Reads(At(q, tid), p) ==> Reads(pc, p)
    ensures Inv(Goto(q, tid, pc))
  {
    hide Slot;
    var r := Goto(q, tid, pc);
    forall p: nat | Window(r, p) ensures p < |r.puts| && CellOk(r, p) {
      assert Window(q, p);
      assert CellOk(q, p);
    }
    forall t ensures ThreadOk(r, t) {
      if t != tid { assert ThreadOk(q, t); }
    }
  }

  /** A claim needs a cell that the previous round has released: the queue is not full. */
  lemma RoomToClaim(q: Queue, tid: nat, pos: nat, d: nat)
    requires Inv(q) && At(q, tid) == EnqCas(pos, d) && q.head == pos
    ensures pos < q.tail + |q.buf|
    ensures pos >= |q.buf| ==> CellOf(q, pos - |q.buf|).turn == pos
    ensures CellOf(q, pos).turn == pos
  {
    hide Slot;
    OkAt(q, tid);
    if pos >= |q.buf| {
      SlotWraps(|q.buf|, pos - |q.buf|);
      assert Window(q, pos - |q.buf|);
      assert CellOk(q, pos - |q.buf|);
    }
  }

  function ClaimedPut(q: Queue, tid: nat, d: nat): Queue {
    Goto(q.(head := q.head + 1, puts := q.puts + [Put(tid, d)]), tid, EnqWrite(q.head, d))
  }

  lemma ClaimPutCells(q: Queue, tid: nat, d: nat)
    requires Inv(q) && At(q, tid) == EnqCas(q.head, d)
    ensures Cells(ClaimedPut(q, tid, d))
  {
    hide Slot, ThreadOk;
    var r := ClaimedPut(q, tid, d);
    RoomToClaim(q, tid, q.head, d);
    forall p: nat | Window(r, p) ensures p < |r.puts| && CellOk(r, p) {
      if p < q.head {
        assert Window(q, p);
        assert CellOk(q, p);
      }
    }
  }

  lemma ClaimPut(q: Queue, tid: nat, d: nat)
    requires Inv(q) && At(q, tid) == EnqCas(q.head, d)
    ensures Inv(ClaimedPut(q, tid, d))
  {
    hide Slot, CellOk, Cells;
    var r := ClaimedPut(q, tid, d);
    RoomToClaim(q, tid, q.head, d);
    ClaimPutCells(q, tid, d);
    forall t ensures ThreadOk(r, t) {
      assert ThreadOk(q, t);
    }
  }

  function ClaimedTake(q: Queue, tid: nat): Queue {
    Goto(q.(tail := q.tail + 1, takes := q.takes + [tid]), tid, DeqRead(q.tail))
  }

  lemma ClaimTakeCells(q: Queue, tid: nat)
    requires Inv(q) && At(q, tid) == DeqCas(q.tail)
    ensures Cells(ClaimedTake(q, tid)) && Window(q, q.tail) && q.tail < q.head
  {
    hide Slot;
    var r := ClaimedTake(q, tid);
    OkAt(q, tid);
    assert Window(q, q.tail);
    assert CellOk(q, q.tail);
    forall p: nat | Window(r, p) ensures p < |r.puts| && CellOk(r, p) {
      assert Window(q, p);
      assert CellOk(q, p);
    }
  }

  lemma ClaimTake(q: Queue, tid: nat)
    requires Inv(q) && At(q, tid) == DeqCas(q.tail)
    ensures Inv(ClaimedTake(q, tid))
  {
    hide Slot, CellOk, Cells;
    var r := ClaimedTake(q, tid);
    OkAt(q, tid);
    ClaimTakeCells(q, tid);
    forall t ensures ThreadOk(r, t) {
      assert ThreadOk(q, t);
    }
  }

  // ---------------------------------------------------------------- steps that write a cell

  /** The two cells are the same cell only for the same position, within one window. */
  lemma WindowSlots(q: Queue, p: nat, r: nat)
    requires Window(q, p) && Window(q, r) && |q.buf| > 0
    ensures Slot(|q.buf|, p) == Slot(|q.buf|, r) <==> p == r
  {
    SameSlot(|q.buf|, p, r);
  }

  predicate Owns(q: Queue, tid: nat) {
    var pc := At(q, tid);
    pc.EnqWrite? || pc.EnqPublish? || pc.DeqRead? || pc.DeqRelease?
  }

  /** The store that the thread at `At(q, tid)` makes to its cell. */
  function Stored(q: Queue, tid: nat, c: Cell, pc: Pc): Queue
    requires |q.buf| > 0 && Owns(q, tid)
  {
    Goto(SetCell(q, At(q, tid).pos, c), tid, pc)
  }

  /** Data is written while the number still says unpublished; afterwards the number only grows. */
  ghost predicate Advances(q: Queue, tid: nat, c: Cell)
    requires |q.buf| > 0 && Owns(q, tid)
  {
    var pos, was := At(q, tid).pos, CellOf(q, At(q, tid).pos);
    || (At(q, tid).EnqWrite? && c.turn == pos)
    || (At(q, tid).EnqPublish? && c == Cell(pos + 1, was.data))
    || (At(q, tid).DeqRelease? && c == Cell(pos + |q.buf|, was.data))
  }

  lemma OverwriteCells(q: Queue, tid: nat, c: Cell, pc: Pc)
    requires Inv(q) && Owns(q, tid) && Window(q, At(q, tid).pos)
    requires CellOk(Stored(q, tid, c, pc), At(q, tid).pos)
    ensures Cells(Stored(q, tid, c, pc))
  {
    hide Slot;
    var r, pos := Stored(q, tid, c, pc), At(q, tid).pos;
    OkAt(q, tid);
    forall p: nat | Window(r, p) ensures p < |r.puts| && CellOk(r, p) {
      assert Window(q, p);
      assert CellOk(q, p);
      WindowSlots(q, p, pos);
    }
    forall i | r.head <= i < |r.buf| ensures r.buf[i].turn == i {
      SlotWraps(|q.buf|, i);
      SameSlot(|q.buf|, pos, i);
      assert q.buf[i].turn == i;
    }
  }

  /** What the owner of a cell knows about it. */
  ghost predicate Owned(q: Queue, tid: nat)
    requires Counts(q) && Owns(q, tid)
  {
    var pc, pos := At(q, tid), At(q, tid).pos;
    && Window(q, pos)
    && (pc.EnqWrite? || pc.EnqPublish? ==> q.tail <= pos && CellOf(q, pos).turn == pos && q.puts[pos].tid == tid)
    && (pc.DeqRead? || pc.DeqRelease? ==> pos < q.tail && CellOf(q, pos).turn == pos + 1 && q.takes[pos] == tid)
  }

  lemma OwnerKnows(q: Queue, tid: nat)
    requires Counts(q) && Owns(q, tid) && ThreadOk(q, tid)
    ensures Owned(q, tid)
  {
    hide Slot;
  }

  /** How the store changes any cell: not at all, or only at pos, where the number never falls. */
  lemma StoreEffect(q: Queue, tid: nat, c: Cell, pc: Pc, t: nat, p: nat)
    requires Counts(q) && Owns(q, tid) && Advances(q, tid, c) && Owned(q, tid) && t != tid
    ensures var pos := At(q, tid).pos; var r := Stored(q, tid, c, pc);
            && CellOf(r, p) == (if Slot(|q.buf|, p) == Slot(|q.buf|, pos) then c else CellOf(q, p))
            && CellOf(q, pos).turn <= c.turn
            && (Slot(|q.buf|, p) == Slot(|q.buf|, pos) ==> CellOf(q, p) == CellOf(q, pos))
            && (c.turn == pos || c.turn == pos + 1 || c.turn == pos + |q.buf|)
            && (c.turn == pos + 1 ==> CellOf(q, pos).turn == pos)
            && r == q.(buf := r.buf, pcs := r.pcs) && |r.buf| == |q.buf| && At(r, t) == At(q, t)
  {
    hide Slot;
  }

  lemma OverwriteOwner(q: Queue, tid: nat, c: Cell, pc: Pc, t: nat)
    requires Counts(q) && ThreadOk(q, t) && Owns(q, tid) && Owned(q, tid) && t != tid
    requires Advances(q, tid, c) && Owns(q, t)
    ensures ThreadOk(Stored(q, tid, c, pc), t)
  {
    hide Slot, Advances, Stored, At, CellOf;
    OwnerKnows(q, t);
    WindowSlots(q, At(q, t).pos, At(q, tid).pos);
    StoreEffect(q, tid, c, pc, t, At(q, t).pos);
  }

  lemma OverwriteClaim(q: Queue, tid: nat, c: Cell, pc: Pc, t: nat)
    requires Counts(q) && ThreadOk(q, t) && Owns(q, tid) && Owned(q, tid) && t != tid
    requires Advances(q, tid, c) && (At(q, t).EnqCas? || At(q, t).DeqCas?)
    ensures ThreadOk(Stored(q, tid, c, pc), t)
  {
    hide Slot, Advances, Stored, At, CellOf;
    var p, pos := At(q, t).pos, At(q, tid).pos;
    if p < pos + |q.buf| && pos < p + |q.buf| { SameSlot(|q.buf|, p, pos); }
    StoreEffect(q, tid, c, pc, t, p);
  }

  lemma OverwriteFind(q: Queue, tid: nat, c: Cell, pc: Pc, t: nat)
    requires Counts(q) && ThreadOk(q, t) && Owns(q, tid) && Owned(q, tid) && t != tid
    requires Advances(q, tid, c)
    requires At(q, t).FindData? || At(q, t).FindAgain? || At(q, t).FindNow?
    ensures ThreadOk(Stored(q, tid, c, pc), t)
  {
    hide Slot, Advances, Stored, At, CellOf;
    var p, pos := At(q, t).pos, At(q, tid).pos;
    if p < pos + |q.buf| && pos < p + |q.buf| { SameSlot(|q.buf|, p, pos); }
    StoreEffect(q, tid, c, pc, t, p);
  }

  /** Nobody else's claims depend on what the owner of a cell stores there. */
  lemma OverwriteThread(q: Queue, tid: nat, c: Cell, pc: Pc, t: nat)
    requires Counts(q) && ThreadOk(q, t) && Owns(q, tid) && Owned(q, tid) && t != tid
    requires Advances(q, tid, c)
    ensures ThreadOk(Stored(q, tid, c, pc), t)
  {
    hide Slot, Advances, OwnsPut, OwnsTake, Seen, Owned, CellOf;
    match At(q, t) {
      case EnqCas(_, _) => OverwriteClaim(q, tid, c, pc, t);
      case EnqWrite(_, _) => OverwriteOwner(q, tid, c, pc, t);
      case EnqPublish(_, _) => OverwriteOwner(q, tid, c, pc, t);
      case DeqCas(_) => OverwriteClaim(q, tid, c, pc, t);
      case DeqRead(_) => OverwriteOwner(q, tid, c, pc, t);
      case DeqRelease(_, _) => OverwriteOwner(q, tid, c, pc, t);
      case FindData(_, _, _) => OverwriteFind(q, tid, c, pc, t);
      case FindAgain(_, _, _, _) => OverwriteFind(q, tid, c, pc, t);
      case FindNow(_, _, _) => OverwriteFind(q, tid, c, pc, t);
      case _ =>
    }
  }

  lemma OverwriteInv(q: Queue, tid: nat, c: Cell, pc: Pc)
    requires Inv(q) && Owns(q, tid) && Advances(q, tid, c) && Window(q, At(q, tid).pos)
    requires CellOk(Stored(q, tid, c, pc), At(q, tid).pos) && ThreadOk(Stored(q, tid, c, pc), tid)
    ensures Inv(Stored(q, tid, c, pc))
  {
    hide Slot, CellOk, Cells, Advances, ThreadOk;
    var r := Stored(q, tid, c, pc);
    OverwriteCells(q, tid, c, pc);
    OkAt(q, tid);
    OwnerKnows(q, tid);
    forall t ensures ThreadOk(r, t) {
      OkAt(q, t);
      if t != tid { OverwriteThread(q, tid, c, pc, t); }
    }
  }

  // ---------------------------------------------------------------- every move

  lemma EnqInv(q: Queue, tid: nat, spurious: bool)
    requires Inv(q)
    ensures Inv(EnqStep(q, tid, spurious))
  {
    hide Slot, Cells;
    OkAt(q, tid);
    match At(q, tid)
    case EnqLoad(d) => LocalStep(q, tid, EnqSeq(q.head, d));
    case EnqSeq(pos, d) => LocalStep(q, tid, EnqStep(q, tid, spurious).pcs[tid]);
    case EnqCas(pos, d) =>
      if q.head == pos && !spurious { ClaimPut(q, tid, d); } else { LocalStep(q, tid, EnqSeq(q.head, d)); }
    case EnqWrite(pos, d) => OverwriteInv(q, tid, CellOf(q, pos).(data := d), EnqPublish(pos, d));
    case EnqPublish(pos, d) => OverwriteInv(q, tid, CellOf(q, pos).(turn := pos + 1), Done(Enqueued));
    case _ =>
  }

  lemma DeqInv(q: Queue, tid: nat, spurious: bool)
    requires Inv(q)
    ensures Inv(DeqStep(q, tid, spurious))
  {
    hide Slot;
    OkAt(q, tid);
    match At(q, tid)
    case DeqLoad => LocalStep(q, tid, DeqSeq(q.tail));
    case DeqSeq(pos) =>
      if pos == q.tail { NothingBehindHead(q); }
      LocalStep(q, tid, DeqStep(q, tid, spurious).pcs[tid]);
    case DeqCas(pos) =>
      if q.tail == pos && !spurious { ClaimTake(q, tid); } else { LocalStep(q, tid, DeqSeq(q.tail)); }
    case DeqRead(pos) =>
      assert CellOk(q, pos);
      LocalStep(q, tid, DeqRelease(pos, CellOf(q, pos).data));
    case DeqRelease(pos, v) => OverwriteInv(q, tid, CellOf(q, pos).(turn := pos + |q.buf|), Done(Item(v)));
    case _ =>
  }

  /** The cell that the next producer will claim is not published yet. */
  lemma NothingBehindHead(q: Queue)
    requires Inv(q)
    ensures CellOf(q, q.head).turn <= q.head
    ensures q.head >= |q.buf| ==> CellOf(q, q.head) == CellOf(q, q.head - |q.buf|) && CellOk(q, q.head - |q.buf|)
    ensures q.head < |q.buf| ==> CellOf(q, q.head).turn == q.head
  {
    hide Slot;
    if q.head >= |q.buf| {
      SlotWraps(|q.buf|, q.head - |q.buf|);
      assert Window(q, q.head - |q.buf|);
      assert CellOk(q, q.head - |q.buf|);
    } else {
      SlotWraps(|q.buf|, q.head);
    }
  }

  lemma FindInv(q: Queue, tid: nat)
    requires Inv(q)
    ensures ThreadOk(Goto(q, tid, FindPc(q, At(q, tid))), tid)
  {
    hide Slot, Cells;
    OkAt(q, tid);
    var pc := At(q, tid);
    if pc.FindData? {
      LatestSeen(q, pc.pos);
    }
  }

  /** While a position's number stands, its cell holds what was put there. */
  lemma LatestSeen(q: Queue, p: nat)
    requires Inv(q) && p < q.head
    ensures CellOf(q, p).turn == p + 1 ==> CellOf(q, p).data == q.puts[p].d
    ensures CellOf(q, p).turn >= p
    ensures !Window(q, p) ==> CellOf(q, p).turn >= p + |q.buf|
  {
    hide Slot;
    var r := Latest(q, p);
    assert CellOk(q, r);
  }

  /** Every move of every thread keeps the invariant. */
  lemma MoveInv(q: Queue, m: Move)
    requires Inv(q)
    ensures Inv(Apply(q, m))
  {
    hide Slot, Cells, EnqStep, DeqStep;
    match m
    case Start(tid, call) =>
      if At(q, tid).Idle? || At(q, tid).Done? { LocalStep(q, tid, Begin(call)); }
    case Run(tid, spurious) =>
      EnqInv(q, tid, spurious);
      DeqInv(q, tid, spurious);
      FindInv(q, tid);
      var pc := At(q, tid);
      if pc.Done? || pc.FindTail? || pc.FindHead? || pc.FindSeq? || pc.FindData? || pc.FindAgain? || pc.FindNow? {
        LocalStep(q, tid, FindPc(q, pc));
      }
  }

  // ---------------------------------------------------------------- runs

  function After(q: Queue, moves: seq<Move>): (r: Queue)
    requires |q.buf| > 0
    ensures |r.buf| == |q.buf|
    decreases |moves|
  {
    if moves == [] then q else After(Apply(q, moves[0]), moves[1..])
  }

  lemma {:induction false} RunInv(q: Queue, moves: seq<Move>)
    requires Inv(q)
    ensures Inv(After(q, moves))
    decreases |moves|
  {
    hide Inv, Apply;
    InvSize(q);
    if moves != [] {
      MoveInv(q, moves[0]);
      RunInv(Apply(q, moves[0]), moves[1..]);
    }
  }

  lemma InvSize(q: Queue)
    requires Inv(q)
    ensures |q.buf| >= 2 && |q.puts| == q.head && |q.takes| == q.tail && q.tail <= q.head <= q.tail + |q.buf|
  {
  }

  /** tail <= head <= tail + capacity in every run of any number of threads. */
  lemma Bounds(n: nat, moves: seq<Move>)
    requires n >= 2
    ensures var q := After(Init(n), moves); q.tail <= q.head <= q.tail + n
  {
    hide Inv;
    InitInv(n);
    RunInv(Init(n), moves);
    InvSize(After(Init(n), moves));
  }

  /** Thread 0 enqueues d and takes k steps of it. */
  function Steps(k: nat): seq<Move> {
    if k == 0 then [] else [Run(0, false)] + Steps(k - 1)
  }

  function Script(d: nat): seq<Move> { [Start(0, Enqueue(d))] + Steps(5) }

  lemma AfterSteps(q: Queue, k: nat)
    requires |q.buf| > 0
    ensures k == 0 ==> After(q, Steps(k)) == q
    ensures k > 0 ==> After(q, Steps(k)) == After(Apply(q, Run(0, false)), Steps(k - 1))
  {
    hide Apply;
    if k > 0 { AfterCons(q, Run(0, false), Steps(k - 1)); }
  }

  /** With one cell, a released cell and a published one carry the same number. */
  lemma OverrunsOnce(q: Queue, d: nat)
    requires |q.buf| == 1 && q.buf[0].turn == q.head && (At(q, 0).Idle? || At(q, 0).Done?)
    ensures var r := After(q, Script(d));
            && r.head == q.head + 1 && r.tail == q.tail && |r.buf| == 1 && r.buf[0].turn == r.head
            && At(r, 0) == Done(Enqueued)
  {
    hide After, Slot;
    var run := Run(0, false);
    var a := Apply(q, Start(0, Enqueue(d)));
    var b := Apply(a, run);
    var c := Apply(b, run);
    var e := Apply(c, run);
    var f := Apply(e, run);
    AfterCons(q, Start(0, Enqueue(d)), Steps(5));
    AfterSteps(a, 5);
    AfterSteps(b, 4);
    AfterSteps(c, 3);
    AfterSteps(e, 2);
    AfterSteps(f, 1);
    AfterSteps(Apply(f, run), 0);
  }

  lemma CapacityOneOverruns()
    ensures var q := After(Init(1), Script(1) + Script(2)); q.head == 2 && q.tail == 0
  {
    hide After, Script;
    var q0 := Init(1);
    OverrunsOnce(q0, 1);
    OverrunsOnce(After(q0, Script(1)), 2);
    AfterJoin(q0, Script(1), Script(2));
  }

  lemma AfterJoin(q: Queue, a: seq<Move>, b: seq<Move>)
    requires |q.buf| > 0
    ensures After(q, a + b) == After(After(q, a), b)
  {
    hide After;
    AfterSplit(q, a + b, |a|);
    assert (a + b)[..|a|] == a && (a + b)[|a|..] == b;
  }

  lemma AfterCons(q: Queue, a: Move, rest: seq<Move>)
    requires |q.buf| > 0
    ensures After(q, [a] + rest) == After(Apply(q, a), rest)
  {
    hide Apply;
    assert ([a] + rest)[1..] == rest;
  }

  lemma {:induction false} AfterSplit(q: Queue, moves: seq<Move>, i: nat)
    requires |q.buf| > 0 && i <= |moves|
    ensures After(q, moves) == After(After(q, moves[..i]), moves[i..])
    decreases i
  {
    hide Apply;
    if i > 0 {
      AfterSplit(Apply(q, moves[0]), moves[1..], i - 1);
      assert moves[..i][1..] == moves[1..][..i - 1];
      assert moves[1..][i - 1..] == moves[i..];
    } else {
      assert moves[0..] == moves;
    }
  }

  /** The bound holds in all runs exactly for capacities of two or more, although 1 passes the compile-time check. */
  lemma BoundsExactly(n: nat)
    requires n >= 1
    ensures n >= 2 <==> forall moves {:trigger After(Init(n), moves)} ::
      After(Init(n), moves).tail <= After(Init(n), moves).head <= After(Init(n), moves).tail + n
  {
    hide After, Init;
    if n >= 2 {
      forall moves ensures After(Init(n), moves).tail <= After(Init(n), moves).head <= After(Init(n), moves).tail + n {
        Bounds(n, moves);
      }
    } else {
      CapacityOneOverruns();
    }
  }

  // ---------------------------------------------------------------- refinement of a FIFO queue

  /** The abstract queue: claimed by producers, not yet claimed by consumers. */
  ghost function Contents(q: Queue): seq<Put>
    requires q.tail <= |q.puts|
  {
    q.puts[q.tail..]
  }

  datatype Effect = Nothing | Pushed(tid: nat, d: nat) | Popped(tid: nat)

  /** Where a move takes effect: at a successful compare-and-swap. */
  function EffectOf(q: Queue, m: Move): Effect {
    if m.Run? && !m.spurious && At(q, m.tid).EnqCas? && At(q, m.tid).pos == q.head then Pushed(m.tid, At(q, m.tid).d)
    else if m.Run? && !m.spurious && At(q, m.tid).DeqCas? && At(q, m.tid).pos == q.tail then Popped(m.tid)
    else Nothing
  }

  /** The queue refines a bounded FIFO sequence, whatever the interleaving. */
  lemma MoveRefines(q: Queue, m: Move)
    requires Inv(q)
    ensures var r := Apply(q, m);
            Inv(r) &&
            match EffectOf(q, m)
            case Nothing => Contents(r) == Contents(q)
            case Pushed(tid, d) =>
              |Contents(q)| < |q.buf| && Contents(r) == Contents(q) + [Put(tid, d)]
              && At(r, tid) == EnqWrite(q.head, d)
            case Popped(tid) =>
              Contents(q) != [] && Contents(r) == Contents(q)[1..]
              && At(r, tid) == DeqRead(q.tail) && r.puts[q.tail] == Contents(q)[0]
  {
    hide Slot, Cells, Inv;
    MoveInv(q, m);
    InvSize(q);
    if EffectOf(q, m).Pushed? { RoomAt(q, m.tid); }
    if EffectOf(q, m).Popped? { ItemAt(q, m.tid); }
  }

  lemma RoomAt(q: Queue, tid: nat)
    requires Inv(q) && At(q, tid).EnqCas? && At(q, tid).pos == q.head
    ensures q.head < q.tail + |q.buf|
  {
    RoomToClaim(q, tid, q.head, At(q, tid).d);
  }

  lemma ItemAt(q: Queue, tid: nat)
    requires Inv(q) && At(q, tid).DeqCas? && At(q, tid).pos == q.tail
    ensures q.tail < q.head
  {
    OkAt(q, tid);
  }

  /** FULL exactly when the queue holds `capacity` items or the consumer of the cell has not released it. */
  lemma FullExactly(q: Queue, tid: nat, pos: nat, d: nat)
    requires Inv(q) && At(q, tid) == EnqSeq(pos, d)
    ensures At(Apply(q, Run(tid, false)), tid) == Done(Full)
      <==> pos == q.head && q.head >= |q.buf| && (q.head - q.tail == |q.buf| || Reading(q, q.head - |q.buf|))
  {
    hide Slot;
    OkAt(q, tid);
    NothingBehindHead(q);
    if pos < q.head { LatestSeen(q, pos); }
    if q.head >= |q.buf| && Reading(q, q.head - |q.buf|) { OkAt(q, q.takes[q.head - |q.buf|]); }
  }

  ghost predicate Reading(q: Queue, p: nat) {
    p < q.tail && p < |q.takes| && Reads(At(q, q.takes[p]), p)
  }

  ghost predicate Writing(q: Queue, p: nat) {
    p < q.head && p < |q.puts| && Writes(At(q, q.puts[p].tid), p)
  }

  /** EMPTY exactly when there is no item or the producer of the first one has not published it. */
  lemma EmptyExactly(q: Queue, tid: nat, pos: nat)
    requires Inv(q) && At(q, tid) == DeqSeq(pos)
    ensures At(Apply(q, Run(tid, false)), tid) == Done(Empty)
      <==> pos == q.tail && (q.head == q.tail || Writing(q, q.tail))
  {
    hide Slot;
    OkAt(q, tid);
    if pos == q.head {
      NothingBehindHead(q);
    } else if Window(q, pos) {
      assert CellOk(q, pos);
      OkAt(q, q.puts[pos].tid);
    } else {
      LatestSeen(q, pos);
    }
  }

  // ---------------------------------------------------------------- exactly once

  /** The position that a move delivers to its caller, with the value. */
  datatype Delivery = Delivery(pos: nat, v: nat)

  function DeliveryOf(q: Queue, m: Move): seq<Delivery> {
    if m.Run? && At(q, m.tid).DeqRelease? then [Delivery(At(q, m.tid).pos, At(q, m.tid).v)] else []
  }

  function Deliveries(q: Queue, moves: seq<Move>): seq<Delivery>
    requires |q.buf| > 0
    decreases |moves|
  {
    if moves == [] then [] else DeliveryOf(q, moves[0]) + Deliveries(Apply(q, moves[0]), moves[1..])
  }

  /** Handed to a caller: claimed by a consumer that has returned. */
  ghost predicate Delivered(q: Queue, p: nat) {
    p < q.tail && !Reading(q, p)
  }

  lemma Prefixes(q: Queue, m: Move)
    requires Inv(q)
    ensures var r := Apply(q, m);
            && q.head <= r.head == |r.puts| && q.tail <= r.tail == |r.takes|
            && r.puts[..q.head] == q.puts && r.takes[..q.tail] == q.takes
  {
    hide Slot, Cells;
  }

  /** A move delivers at most one position, not delivered before, with the value put there. */
  lemma MoveDelivers(q: Queue, m: Move)
    requires Inv(q)
    ensures var out := DeliveryOf(q, m);
            && |out| <= 1
            && (out != [] ==> !Delivered(q, out[0].pos) && out[0].pos < |q.puts| && out[0].v == q.puts[out[0].pos].d)
  {
    hide Slot, Cells, CellOf;
    OkAt(q, m.tid);
  }

  lemma EnqDelivers(q: Queue, tid: nat, spurious: bool, p: nat)
    requires Inv(q)
    ensures Delivered(EnqStep(q, tid, spurious), p) <==> Delivered(q, p)
  {
    hide Slot, Cells, CellOf;
  }

  lemma DeqDelivers(q: Queue, tid: nat, spurious: bool, p: nat)
    requires Inv(q)
    ensures Delivered(DeqStep(q, tid, spurious), p) <==>
      Delivered(q, p) || (At(q, tid).DeqRelease? && At(q, tid).pos == p)
  {
    hide Slot, Cells, CellOf;
    OkAt(q, tid);
    if p < |q.takes| { OkAt(q, q.takes[p]); }
  }

  lemma MoveDelivered(q: Queue, m: Move, p: nat)
    requires Inv(q)
    ensures Delivered(Apply(q, m), p) <==> Delivered(q, p) || (DeliveryOf(q, m) != [] && DeliveryOf(q, m)[0].pos == p)
  {
    hide Slot, CellOf, Inv, EnqStep, DeqStep;
    InvSize(q);
    if m.Run? {
      EnqDelivers(q, m.tid, m.spurious, p);
      DeqDelivers(q, m.tid, m.spurious, p);
    }
  }

  /** Between q and r exactly these positions were delivered, each once, with the values put there. */
  ghost predicate DeliveredBetween(q: Queue, r: Queue, ds: seq<Delivery>) {
    && |q.puts| <= |r.puts| && r.puts[..|q.puts|] == q.puts
    && (forall i, j :: 0 <= i < j < |ds| ==> ds[i].pos != ds[j].pos)
    && (forall i :: 0 <= i < |ds| ==>
          && !Delivered(q, ds[i].pos) && Delivered(r, ds[i].pos)
          && ds[i].pos < |r.puts| && ds[i].v == r.puts[ds[i].pos].d)
    && (forall p {:trigger Delivered(q, p)} {:trigger Delivered(r, p)} ::
          Delivered(r, p) <==> Delivered(q, p) || Handed(ds, p))
  }

  ghost predicate Handed(ds: seq<Delivery>, p: nat) { exists i :: 0 <= i < |ds| && ds[i].pos == p }

  lemma OneMove(q: Queue, m: Move)
    requires Inv(q)
    ensures DeliveredBetween(q, Apply(q, m), DeliveryOf(q, m))
  {
    hide Inv, Apply, Delivered;
    InvSize(q);
    Prefixes(q, m);
    MoveDelivers(q, m);
    var r, out := Apply(q, m), DeliveryOf(q, m);
    forall p ensures Delivered(r, p) <==> Delivered(q, p) || Handed(out, p) {
      MoveDelivered(q, m, p);
    }
    if out != [] { assert Handed(out, out[0].pos); }
  }

  lemma Chain(q: Queue, a: Queue, r: Queue, ds: seq<Delivery>, es: seq<Delivery>)
    requires DeliveredBetween(q, a, ds) && DeliveredBetween(a, r, es)
    ensures DeliveredBetween(q, r, ds + es)
  {
    hide Delivered;
    var all := ds + es;
    forall i | 0 <= i < |ds| ensures r.puts[ds[i].pos] == a.puts[ds[i].pos] {
      assert r.puts[..|a.puts|][ds[i].pos] == a.puts[ds[i].pos];
    }
    forall p ensures Delivered(r, p) <==> Delivered(q, p) || Handed(all, p) {
      HandedBoth(ds, es, p);
    }
    assert r.puts[..|q.puts|] == r.puts[..|a.puts|][..|q.puts|];
  }

  lemma HandedBoth(ds: seq<Delivery>, es: seq<Delivery>, p: nat)
    ensures Handed(ds + es, p) <==> Handed(ds, p) || Handed(es, p)
  {
    var all := ds + es;
    if Handed(ds, p) {
      var i :| 0 <= i < |ds| && ds[i].pos == p;
      assert all[i].pos == p;
    }
    if Handed(es, p) {
      var i :| 0 <= i < |es| && es[i].pos == p;
      assert all[|ds| + i].pos == p;
    }
  }

  /** Over any run every position is delivered at most once, always with the value that was put there. */
  lemma {:induction false} ExactlyOnce(q: Queue, moves: seq<Move>)
    requires Inv(q)
    ensures DeliveredBetween(q, After(q, moves), Deliveries(q, moves))
    decreases |moves|
  {
    hide Inv, Apply, Delivered, DeliveredBetween;
    InvSize(q);
    if moves == [] {
      NoMove(q);
    } else {
      var a := Apply(q, moves[0]);
      MoveInv(q, moves[0]);
      OneMove(q, moves[0]);
      ExactlyOnce(a, moves[1..]);
      Chain(q, a, After(a, moves[1..]), DeliveryOf(q, moves[0]), Deliveries(a, moves[1..]));
    }
  }

  lemma NoMove(q: Queue)
    ensures DeliveredBetween(q, q, [])
  {
  }

  /**
   * From an empty queue: when no consumer is between its claim and its return, what the callers got
   * is exactly the first `tail` values put, each once.
   */
  lemma FreshRunDelivers(n: nat, moves: seq<Move>)
    requires n >= 2
    ensures var r := After(Init(n), moves); var ds := Deliveries(Init(n), moves);
            && r.tail <= |r.puts|
            && (forall i, j :: 0 <= i < j < |ds| ==> ds[i].pos != ds[j].pos)
            && (forall i :: 0 <= i < |ds| ==> ds[i].pos < r.tail && ds[i].v == r.puts[ds[i].pos].d)
            && ((forall p: nat :: p < r.tail ==> !Reading(r, p)) ==> forall p: nat :: p < r.tail ==> Handed(ds, p))
  {
    hide Inv, Apply, Reading;
    InitInv(n);
    RunInv(Init(n), moves);
    ExactlyOnce(Init(n), moves);
    var r := After(Init(n), moves);
    InvSize(r);
    forall p: nat | p < r.tail && !Reading(r, p) ensures Handed(Deliveries(Init(n), moves), p) {
      assert Delivered(r, p) && !Delivered(Init(n), p);
    }
  }

  // ---------------------------------------------------------------- try_find_ptr

  /** FOUND means that the pointer is published and unclaimed at that very step. */
  lemma FindSound(q: Queue, tid: nat)
    requires Inv(q) && !At(q, tid).Done? && At(Apply(q, Run(tid, false)), tid) == Done(Found)
    ensures At(q, tid).FindNow?
    ensures var p := At(q, tid).pos;
            q.tail <= p < q.head && q.puts[p].d == At(q, tid).ptr && CellOf(q, p) == Cell(p + 1, At(q, tid).ptr)
  {
    hide Slot;
    OkAt(q, tid);
    assert CellOk(q, At(q, tid).pos);
  }

  /** A search that will still look at position p. */
  ghost predicate Awaits(q: Queue, tid: nat, ptr: nat, p: nat) {
    match At(q, tid)
    case FindTail(x) => x == ptr
    case FindHead(x, from) => x == ptr && from <= p
    case FindSeq(x, pos, end) => x == ptr && pos <= p < end
    case FindData(x, pos, end) => x == ptr && pos <= p < end
    case FindAgain(x, pos, end, v) => x == ptr && pos <= p < end && (pos == p ==> v == ptr)
    case FindNow(x, pos, end) => x == ptr && pos <= p < end
    case Done(ret) => ret == Found
    case _ => false
  }

  /** p holds ptr, published and unclaimed. */
  ghost predicate Holds(q: Queue, ptr: nat, p: nat)
    requires |q.buf| > 0
  {
    q.tail <= p < |q.puts| && q.puts[p].d == ptr && CellOf(q, p) == Cell(p + 1, ptr)
  }

  /** While p holds ptr, a step of the search does not lose it, clamped range included. */
  lemma FindStep(q: Queue, tid: nat, ptr: nat, p: nat)
    requires Inv(q) && Holds(q, ptr, p) && Awaits(q, tid, ptr, p)
    ensures Awaits(Apply(q, Run(tid, false)), tid, ptr, p)
    ensures Awaits(Apply(q, Run(tid, true)), tid, ptr, p)
  {
    hide Slot, Cells;
    OkAt(q, tid);
  }

  /** Nobody changes the cell of an unclaimed published position before claiming it. */
  lemma HoldsStays(q: Queue, m: Move, ptr: nat, p: nat)
    requires Inv(q) && Holds(q, ptr, p) && p >= Apply(q, m).tail
    ensures Holds(Apply(q, m), ptr, p)
  {
    hide Slot, Cells, FindPc;
    Prefixes(q, m);
    assert Window(q, p);
    if m.Run? && Owns(q, m.tid) {
      OkAt(q, m.tid);
      WindowSlots(q, At(q, m.tid).pos, p);
    }
  }

  lemma {:induction false} TailGrows(q: Queue, moves: seq<Move>)
    requires Inv(q)
    ensures q.tail <= After(q, moves).tail
    decreases |moves|
  {
    hide Inv, Apply;
    InvSize(q);
    if moves != [] {
      MoveInv(q, moves[0]);
      Prefixes(q, moves[0]);
      TailGrows(Apply(q, moves[0]), moves[1..]);
    }
  }

  lemma OthersMove(q: Queue, m: Move, tid: nat)
    requires |q.buf| > 0 && m.tid != tid
    ensures At(Apply(q, m), tid) == At(q, tid)
  {
    hide FindPc;
  }

  /**
   * A pointer that is published before the search starts and still unclaimed when it returns is found,
   * whatever the other threads do meanwhile.
   */
  lemma {:induction false} FindComplete(q: Queue, tid: nat, ptr: nat, p: nat, moves: seq<Move>)
    requires Inv(q) && Holds(q, ptr, p) && Awaits(q, tid, ptr, p)
    requires forall i :: 0 <= i < |moves| ==> !(moves[i].Start? && moves[i].tid == tid)
    requires p >= After(q, moves).tail
    ensures Awaits(After(q, moves), tid, ptr, p)
    ensures At(After(q, moves), tid).Done? ==> At(After(q, moves), tid) == Done(Found)
    decreases |moves|
  {
    hide Inv, Apply, Holds;
    InvSize(q);
    if moves != [] {
      var m := moves[0];
      MoveInv(q, m);
      TailGrows(Apply(q, m), moves[1..]);
      HoldsStays(q, m, ptr, p);
      if m.tid == tid { FindStep(q, tid, ptr, p); } else { OthersMove(q, m, tid); }
      FindComplete(Apply(q, m), tid, ptr, p, moves[1..]);
    }
  }
}
