/** The queue's buffer in place, and the retry loops of its three operations among other threads. */
module MpmcRing {
  import opened Arith
  import opened Mpmc

  /**
   * The shared words, and where the other threads stand. Between any two atomic actions of a caller
   * the others may move: `others` lists what they do, pause by pause, and then they rest.
   */
  class Ring {
    const cells: array<Cell>
    var head: nat
    var tail: nat
    var threads: map<nat, Pc>
    ghost var puts: seq<Put>
    ghost var takes: seq<nat>

    ghost predicate Valid()
      reads this
    {
      cells.Length >= 1
    }

    ghost function State(): Queue
      reads this, cells
    {
      Queue(head, tail, cells[..], threads, puts, takes)
    }

    /** lf_mpmc_queue_init. */
    constructor (n: nat)
      requires n >= 1
      ensures Valid() && fresh(cells) && State() == Init(n)
    {
      cells := new Cell[n](i requires i >= 0 => Cell(i, 0));
      head, tail, threads, puts, takes := 0, 0, map[], [], [];
      new;
      assert State() == Init(n);
    }

    // -------------------------------------------------------------- atomic actions

    function Load(pos: nat): (c: Cell)
      requires Valid()
      reads this, cells
      ensures c == CellOf(State(), pos)
    {
      cells[Slot(cells.Length, pos)]
    }

    method Store(pos: nat, c: Cell)
      requires Valid()
      modifies this, cells
      ensures Valid() && State() == SetCell(old(State()), pos, c)
    {
      cells[Slot(cells.Length, pos)] := c;
      assert cells[..] == old(cells[..])[Slot(cells.Length, pos) := c];
    }

    method Stand(tid: nat, pc: Pc)
      requires Valid()
      modifies this
      ensures Valid() && State() == Goto(old(State()), tid, pc) && Standing(tid) == pc
    {
      threads := threads[tid := pc];
    }

    method LoadHead(tid: nat, d: nat) returns (pos: nat)
      requires Valid() && Standing(tid) == EnqLoad(d)
      modifies this
      ensures Valid() && State() == Apply(old(State()), Run(tid, false)) && Standing(tid) == EnqSeq(pos, d)
      ensures pos == head == old(head)
    {
      pos := head;
      Stand(tid, EnqSeq(pos, d));
    }

    method LoadTail(tid: nat) returns (pos: nat)
      requires Valid() && Standing(tid) == DeqLoad
      modifies this
      ensures Valid() && State() == Apply(old(State()), Run(tid, false)) && Standing(tid) == DeqSeq(pos)
      ensures pos == tail == old(tail)
    {
      pos := tail;
      Stand(tid, DeqSeq(pos));
    }

    /** The number in the cell, and where the producer goes from there. */
    method LoadForPut(tid: nat, pos: nat, d: nat) returns (s: nat)
      requires Valid() && Standing(tid) == EnqSeq(pos, d) && Inv(State())
      modifies this
      ensures Valid() && State() == Apply(old(State()), Run(tid, false))
      ensures Standing(tid) == if s == pos then EnqCas(pos, d) else if s < pos then Done(Full) else EnqLoad(d)
      ensures head == old(head) && (s > pos ==> pos != head)
    {
      hide Inv;
      AtEnds(State());
      s := Load(pos).turn;
      Stand(tid, if s == pos then EnqCas(pos, d) else if s < pos then Done(Full) else EnqLoad(d));
    }

    method LoadForTake(tid: nat, pos: nat) returns (s: nat)
      requires Valid() && Standing(tid) == DeqSeq(pos) && Inv(State())
      modifies this
      ensures Valid() && State() == Apply(old(State()), Run(tid, false))
      ensures Standing(tid) == if s == pos + 1 then DeqCas(pos) else if s < pos + 1 then Done(Empty) else DeqLoad
      ensures tail == old(tail) && (s > pos + 1 ==> pos != tail)
    {
      hide Inv;
      AtEnds(State());
      s := Load(pos).turn;
      Stand(tid, if s == pos + 1 then DeqCas(pos) else if s < pos + 1 then Done(Empty) else DeqLoad);
    }

    method WriteData(tid: nat, pos: nat, d: nat)
      requires Valid() && Standing(tid) == EnqWrite(pos, d)
      modifies this, cells
      ensures Valid() && State() == Apply(old(State()), Run(tid, false)) && Standing(tid) == EnqPublish(pos, d)
    {
      Store(pos, Load(pos).(data := d));
      Stand(tid, EnqPublish(pos, d));
    }

    method PublishData(tid: nat, pos: nat, d: nat)
      requires Valid() && Standing(tid) == EnqPublish(pos, d)
      modifies this, cells
      ensures Valid() && State() == Apply(old(State()), Run(tid, false)) && Standing(tid) == Done(Enqueued)
    {
      Store(pos, Load(pos).(turn := pos + 1));
      Stand(tid, Done(Enqueued));
    }

    method ReadData(tid: nat, pos: nat) returns (v: nat)
      requires Valid() && Standing(tid) == DeqRead(pos)
      modifies this
      ensures Valid() && State() == Apply(old(State()), Run(tid, false)) && Standing(tid) == DeqRelease(pos, v)
    {
      v := Load(pos).data;
      Stand(tid, DeqRelease(pos, v));
    }

    method ReleaseCell(tid: nat, pos: nat, v: nat)
      requires Valid() && Standing(tid) == DeqRelease(pos, v)
      modifies this, cells
      ensures Valid() && State() == Apply(old(State()), Run(tid, false)) && Standing(tid) == Done(Item(v))
    {
      Store(pos, Load(pos).(turn := pos + cells.Length));
      Stand(tid, Done(Item(v)));
    }

    /** One action of the search; `next` is where it goes from there. */
    method Search(tid: nat, pc: Pc, next: Pc)
      requires Valid() && Standing(tid) == pc && next == FindPc(State(), pc)
      requires pc.FindTail? || pc.FindHead? || pc.FindSeq? || pc.FindData? || pc.FindAgain? || pc.FindNow?
      modifies this
      ensures Valid() && State() == Apply(old(State()), Run(tid, false)) && Standing(tid) == next
    {
      Stand(tid, next);
    }

    method CasHead(tid: nat, pos: nat, d: nat, spurious: bool) returns (ok: bool)
      requires Valid() && At(State(), tid) == EnqCas(pos, d)
      modifies this
      ensures Valid() && State() == Apply(old(State()), Run(tid, spurious))
      ensures ok == (old(head) == pos && !spurious)
      ensures !ok ==> head == old(head)
      ensures Standing(tid) == if ok then EnqWrite(pos, d) else EnqSeq(head, d)
    {
      ok := head == pos && !spurious;
      if ok {
        head := pos + 1;
        puts := puts + [Put(tid, d)];
        Stand(tid, EnqWrite(pos, d));
      } else {
        Stand(tid, EnqSeq(head, d));
      }
    }

    method CasTail(tid: nat, pos: nat, spurious: bool) returns (ok: bool)
      requires Valid() && At(State(), tid) == DeqCas(pos)
      modifies this
      ensures Valid() && State() == Apply(old(State()), Run(tid, spurious))
      ensures ok == (old(tail) == pos && !spurious)
      ensures !ok ==> tail == old(tail)
      ensures Standing(tid) == if ok then DeqRead(pos) else DeqSeq(tail)
    {
      ok := tail == pos && !spurious;
      if ok {
        tail := pos + 1;
        takes := takes + [tid];
        Stand(tid, DeqRead(pos));
      } else {
        Stand(tid, DeqSeq(tail));
      }
    }

    function Standing(tid: nat): (pc: Pc)
      reads this, cells
      ensures pc == At(State(), tid)
    {
      if tid in threads then threads[tid] else Idle
    }

    method AdvancePut(tid: nat, spurious: bool)
      requires Valid()
      modifies this, cells
      ensures Valid() && State() == EnqStep(old(State()), tid, spurious)
    {
      hide Slot, CellOf, SetCell, At;
      match Standing(tid) {
        case EnqLoad(d) => Stand(tid, EnqSeq(head, d));
        case EnqSeq(pos, d) =>
          var s := Load(pos).turn;
          Stand(tid, if s == pos then EnqCas(pos, d) else if s < pos then Done(Full) else EnqLoad(d));
        case EnqCas(pos, d) => var _ := CasHead(tid, pos, d, spurious);
        case EnqWrite(pos, d) =>
          Store(pos, Load(pos).(data := d));
          Stand(tid, EnqPublish(pos, d));
        case EnqPublish(pos, d) =>
          Store(pos, Load(pos).(turn := pos + 1));
          Stand(tid, Done(Enqueued));
        case _ =>
      }
    }

    method AdvanceTake(tid: nat, spurious: bool)
      requires Valid()
      modifies this, cells
      ensures Valid() && State() == DeqStep(old(State()), tid, spurious)
    {
      hide Slot, CellOf, SetCell, At;
      match Standing(tid) {
        case DeqLoad => Stand(tid, DeqSeq(tail));
        case DeqSeq(pos) =>
          var s := Load(pos).turn;
          Stand(tid, if s == pos + 1 then DeqCas(pos) else if s < pos + 1 then Done(Empty) else DeqLoad);
        case DeqCas(pos) => var _ := CasTail(tid, pos, spurious);
        case DeqRead(pos) => Stand(tid, DeqRelease(pos, Load(pos).data));
        case DeqRelease(pos, v) =>
          Store(pos, Load(pos).(turn := pos + cells.Length));
          Stand(tid, Done(Item(v)));
        case _ =>
      }
    }

    /** Where a search goes from here, by the words that it reads. */
    function Onward(pc: Pc): (next: Pc)
      requires Valid()
      reads this, cells
      ensures next == FindPc(State(), pc)
    {
      match pc
      case FindTail(ptr) => FindHead(ptr, tail)
      case FindHead(ptr, from) =>
        if head <= from then Done(NotFound)
        else FindSeq(ptr, if head - from > cells.Length then head - cells.Length else from, head)
      case FindSeq(ptr, pos, end) =>
        if Load(pos).turn != pos + 1 then Next(ptr, pos, end) else FindData(ptr, pos, end)
      case FindData(ptr, pos, end) => FindAgain(ptr, pos, end, Load(pos).data)
      case FindAgain(ptr, pos, end, v) =>
        if Load(pos).turn != pos + 1 || v != ptr then Next(ptr, pos, end) else FindNow(ptr, pos, end)
      case FindNow(ptr, pos, end) =>
        if tail > pos then Next(ptr, pos, end) else Done(Found)
      case _ => pc
    }

    /** One atomic action of any thread. */
    method Advance(m: Move)
      requires Valid()
      modifies this, cells
      ensures Valid() && State() == Apply(old(State()), m)
    {
      hide EnqStep, DeqStep, FindPc, At;
      var pc := Standing(m.tid);
      match m {
        case Start(tid, call) =>
          if pc.Idle? || pc.Done? { Stand(tid, Begin(call)); }
        case Run(tid, spurious) =>
          if pc.EnqLoad? || pc.EnqSeq? || pc.EnqCas? || pc.EnqWrite? || pc.EnqPublish? {
            AdvancePut(tid, spurious);
          } else if pc.DeqLoad? || pc.DeqSeq? || pc.DeqCas? || pc.DeqRead? || pc.DeqRelease? {
            AdvanceTake(tid, spurious);
          } else if !pc.Idle? {
            Stand(tid, Onward(pc));
          }
      }
    }

    /** Everybody but first.tid makes the listed moves; then it is ready for its next action. */
    method Others(moves: seq<Move>, ghost start: Queue, ghost first: Move, ghost before: seq<Move>, tid: nat)
      returns (ghost trace: seq<Move>)
      requires Valid() && Tracks(start, before, State(), first) && first.tid == tid
      modifies this, cells
      ensures Valid() && Ready(start, trace, State(), first) && Standing(tid) == old(Standing(tid))
      ensures moves == [] ==> State() == old(State()) && head == old(head) && tail == old(tail)
    {
      hide Tracks, Apply, Ready;
      trace := before;
      for i := 0 to |moves|
        invariant Valid() && Tracks(start, trace, State(), first) && Standing(tid) == old(Standing(tid))
        invariant moves == [] ==> State() == old(State()) && head == old(head) && tail == old(tail)
      {
        if moves[i].tid != tid {
          OthersMove(State(), moves[i], tid);
          TracksMove(start, trace, State(), first, moves[i]);
          Advance(moves[i]);
          trace := trace + [moves[i]];
        }
      }
      TracksReady(start, trace, State(), first);
    }

    // -------------------------------------------------------------- the callers' loops

    /** The rest of an enqueue that has claimed its position. */
    method FinishPut(tid: nat, pos: nat, d: nat, a: seq<Move>, b: seq<Move>,
           ghost start: Queue, ghost first: Move, ghost before: seq<Move>)
      returns (ghost trace: seq<Move>)
      requires Valid() && Tracks(start, before, State(), first) && first.tid == tid && Standing(tid) == EnqWrite(pos, d)
      modifies this, cells
      ensures Valid() && Tracks(start, trace, State(), first) && Standing(tid) == Done(Enqueued)
    {
      hide Tracks, Apply, At;
      trace := Others(a, start, first, before, tid);
      WriteData(tid, pos, d);
      trace := Others(b, start, first, trace + [Run(tid, false)], tid);
      PublishData(tid, pos, d);
      trace := trace + [Run(tid, false)];
    }

    method PutLoad(tid: nat, pos: nat, d: nat, moves: seq<Move>,
           ghost start: Queue, ghost first: Move, ghost before: seq<Move>)
      returns (s: nat, ghost trace: seq<Move>)
      requires Valid() && Tracks(start, before, State(), first) && first.tid == tid && Standing(tid) == EnqSeq(pos, d)
      modifies this, cells
      ensures Valid() && Tracks(start, trace, State(), first)
      ensures Standing(tid) == if s == pos then EnqCas(pos, d) else if s < pos then Done(Full) else EnqLoad(d)
      ensures (moves == [] ==> head == old(head)) && (s > pos ==> pos != head)
    {
      hide Tracks, Apply, Inv, At, State, Standing;
      trace := Others(moves, start, first, before, tid);
      s := LoadForPut(tid, pos, d);
      trace := trace + [Run(tid, false)];
    }

    method PutCas(tid: nat, pos: nat, d: nat, weak: bool, moves: seq<Move>,
           ghost start: Queue, ghost first: Move, ghost before: seq<Move>)
      returns (ok: bool, ghost trace: seq<Move>)
      requires Valid() && Tracks(start, before, State(), first) && first.tid == tid && Standing(tid) == EnqCas(pos, d)
      modifies this, cells
      ensures Valid() && Tracks(start, trace, State(), first)
      ensures Standing(tid) == if ok then EnqWrite(pos, d) else EnqSeq(head, d)
      ensures moves == [] && !ok ==> head == old(head) && (pos != head || weak)
    {
      hide Tracks, Apply, Inv, At, State, Standing;
      trace := Others(moves, start, first, before, tid);
      ok := CasHead(tid, pos, d, weak);
      trace := trace + [Run(tid, weak)];
    }

    method PutReload(tid: nat, d: nat, moves: seq<Move>, ghost start: Queue, ghost first: Move, ghost before: seq<Move>)
      returns (pos: nat, ghost trace: seq<Move>)
      requires Valid() && Tracks(start, before, State(), first) && first.tid == tid && Standing(tid) == EnqLoad(d)
      modifies this, cells
      ensures Valid() && Tracks(start, trace, State(), first)
      ensures Standing(tid) == EnqSeq(pos, d) && pos == head && (moves == [] ==> head == old(head))
    {
      hide Tracks, Apply, Inv, At, State, Standing;
      trace := Others(moves, start, first, before, tid);
      pos := LoadHead(tid, d);
      trace := trace + [Run(tid, false)];
    }

    /** lf_mpmc_queue_try_enqueue: it returns as soon as the others leave it alone for one round. */
    method TryEnqueue(tid: nat, d: nat, others: seq<seq<Move>>, spurious: seq<bool>)
      returns (r: Ret, ghost trace: seq<Move>)
      requires Valid() && Inv(State()) && (Standing(tid).Idle? || Standing(tid).Done?)
      modifies this, cells
      ensures Valid() && Tracks(old(State()), trace, State(), Start(tid, Enqueue(d)))
      ensures Standing(tid) == Done(r) && (r.Enqueued? || r.Full?)
    {
      hide Tracks, Apply, Inv, At, State, Standing;
      ghost var start, first := State(), Start(tid, Enqueue(d));
      TracksStart(start, tid, Enqueue(d));
      Stand(tid, EnqLoad(d));
      var pos;
      pos, trace := PutReload(tid, d, Pause(others, 0), start, first, [first]);
      var k, j := 1, 0;
      while true
        invariant Valid() && Tracks(start, trace, State(), first) && Standing(tid) == EnqSeq(pos, d)
        decreases Left(others, k) + Left(spurious, j), if pos == head then 0 else 1
      {
        var s, ok;
        s, trace := PutLoad(tid, pos, d, Pause(others, k), start, first, trace);
        if s < pos { return Full, trace; }
        if s == pos {
          ok, trace := PutCas(tid, pos, d, j < |spurious| && spurious[j], Pause(others, k + 1), start, first, trace);
          if ok {
            trace := FinishPut(tid, pos, d, Pause(others, k + 2), Pause(others, k + 3), start, first, trace);
            return Enqueued, trace;
          }
          pos := head;
        } else {
          pos, trace := PutReload(tid, d, Pause(others, k + 1), start, first, trace);
        }
        k, j := k + 2, j + 1;
      }
    }

    /** The rest of a dequeue that has claimed its position. */
    method FinishTake(tid: nat, pos: nat, a: seq<Move>, b: seq<Move>,
           ghost start: Queue, ghost first: Move, ghost before: seq<Move>)
      returns (v: nat, ghost trace: seq<Move>)
      requires Valid() && Tracks(start, before, State(), first) && first.tid == tid && Standing(tid) == DeqRead(pos)
      modifies this, cells
      ensures Valid() && Tracks(start, trace, State(), first) && Standing(tid) == Done(Item(v))
    {
      hide Tracks, Apply, At;
      trace := Others(a, start, first, before, tid);
      v := ReadData(tid, pos);
      trace := Others(b, start, first, trace + [Run(tid, false)], tid);
      ReleaseCell(tid, pos, v);
      trace := trace + [Run(tid, false)];
    }

    method TakeLoad(tid: nat, pos: nat, moves: seq<Move>,
           ghost start: Queue, ghost first: Move, ghost before: seq<Move>)
      returns (s: nat, ghost trace: seq<Move>)
      requires Valid() && Tracks(start, before, State(), first) && first.tid == tid && Standing(tid) == DeqSeq(pos)
      modifies this, cells
      ensures Valid() && Tracks(start, trace, State(), first)
      ensures Standing(tid) == if s == pos + 1 then DeqCas(pos) else if s < pos + 1 then Done(Empty) else DeqLoad
      ensures (moves == [] ==> tail == old(tail)) && (s > pos + 1 ==> pos != tail)
    {
      hide Tracks, Apply, Inv, At, State, Standing;
      trace := Others(moves, start, first, before, tid);
      s := LoadForTake(tid, pos);
      trace := trace + [Run(tid, false)];
    }

    method TakeCas(tid: nat, pos: nat, weak: bool, moves: seq<Move>,
           ghost start: Queue, ghost first: Move, ghost before: seq<Move>)
      returns (ok: bool, ghost trace: seq<Move>)
      requires Valid() && Tracks(start, before, State(), first) && first.tid == tid && Standing(tid) == DeqCas(pos)
      modifies this, cells
      ensures Valid() && Tracks(start, trace, State(), first)
      ensures Standing(tid) == if ok then DeqRead(pos) else DeqSeq(tail)
      ensures moves == [] && !ok ==> tail == old(tail) && (pos != tail || weak)
    {
      hide Tracks, Apply, Inv, At, State, Standing;
      trace := Others(moves, start, first, before, tid);
      ok := CasTail(tid, pos, weak);
      trace := trace + [Run(tid, weak)];
    }

    method TakeReload(tid: nat, moves: seq<Move>, ghost start: Queue, ghost first: Move, ghost before: seq<Move>)
      returns (pos: nat, ghost trace: seq<Move>)
      requires Valid() && Tracks(start, before, State(), first) && first.tid == tid && Standing(tid) == DeqLoad
      modifies this, cells
      ensures Valid() && Tracks(start, trace, State(), first)
      ensures Standing(tid) == DeqSeq(pos) && pos == tail && (moves == [] ==> tail == old(tail))
    {
      hide Tracks, Apply, Inv, At, State, Standing;
      trace := Others(moves, start, first, before, tid);
      pos := LoadTail(tid);
      trace := trace + [Run(tid, false)];
    }

    /** lf_mpmc_queue_try_dequeue. */
    method TryDequeue(tid: nat, others: seq<seq<Move>>, spurious: seq<bool>)
      returns (r: Ret, ghost trace: seq<Move>)
      requires Valid() && Inv(State()) && (Standing(tid).Idle? || Standing(tid).Done?)
      modifies this, cells
      ensures Valid() && Tracks(old(State()), trace, State(), Start(tid, Dequeue))
      ensures Standing(tid) == Done(r) && (r.Item? || r.Empty?)
    {
      hide Tracks, Apply, Inv, At, State, Standing;
      ghost var start, first := State(), Start(tid, Dequeue);
      TracksStart(start, tid, Dequeue);
      Stand(tid, DeqLoad);
      var pos;
      pos, trace := TakeReload(tid, Pause(others, 0), start, first, [first]);
      var k, j := 1, 0;
      while true
        invariant Valid() && Tracks(start, trace, State(), first) && Standing(tid) == DeqSeq(pos)
        decreases Left(others, k) + Left(spurious, j), if pos == tail then 0 else 1
      {
        var s, ok;
        s, trace := TakeLoad(tid, pos, Pause(others, k), start, first, trace);
        if s < pos + 1 { return Empty, trace; }
        if s == pos + 1 {
          ok, trace := TakeCas(tid, pos, j < |spurious| && spurious[j], Pause(others, k + 1), start, first, trace);
          if ok {
            var v;
            v, trace := FinishTake(tid, pos, Pause(others, k + 2), Pause(others, k + 3), start, first, trace);
            return Item(v), trace;
          }
          pos := tail;
        } else {
          pos, trace := TakeReload(tid, Pause(others, k + 1), start, first, trace);
        }
        k, j := k + 2, j + 1;
      }
    }

    /** The first look at a position: its number, then the pointer in it. */
    method Glance(tid: nat, ptr: nat, pos: nat, end: nat, a: seq<Move>, b: seq<Move>,
           ghost start: Queue, ghost first: Move, ghost before: seq<Move>)
      returns (there: bool, v: nat, ghost trace: seq<Move>)
      requires Valid() && Tracks(start, before, State(), first)
      requires first.tid == tid && Standing(tid) == FindSeq(ptr, pos, end)
      modifies this, cells
      ensures Valid() && Tracks(start, trace, State(), first)
      ensures Standing(tid) == if there then FindAgain(ptr, pos, end, v) else Next(ptr, pos, end)
    {
      hide Tracks, Apply, At, Inv, Next;
      trace := Others(a, start, first, before, tid);
      v := 0;
      there := Load(pos).turn == pos + 1;
      Search(tid, FindSeq(ptr, pos, end), if there then FindData(ptr, pos, end) else Next(ptr, pos, end));
      trace := trace + [Run(tid, false)];
      if there {
        trace := Others(b, start, first, trace, tid);
        v := Load(pos).data;
        Search(tid, FindData(ptr, pos, end), FindAgain(ptr, pos, end, v));
        trace := trace + [Run(tid, false)];
      }
    }

    /** The second look: the number and the pointer still stand, and no consumer has claimed the position. */
    method Recheck(tid: nat, ptr: nat, pos: nat, end: nat, v: nat, a: seq<Move>, b: seq<Move>,
           ghost start: Queue, ghost first: Move, ghost before: seq<Move>)
      returns (found: bool, ghost trace: seq<Move>)
      requires Valid() && Tracks(start, before, State(), first) && first.tid == tid
      requires Standing(tid) == FindAgain(ptr, pos, end, v)
      modifies this, cells
      ensures Valid() && Tracks(start, trace, State(), first)
      ensures Standing(tid) == if found then Done(Found) else Next(ptr, pos, end)
    {
      hide Tracks, Apply, At, Inv, Next;
      trace := Others(a, start, first, before, tid);
      found := Load(pos).turn == pos + 1 && v == ptr;
      Search(tid, FindAgain(ptr, pos, end, v), if found then FindNow(ptr, pos, end) else Next(ptr, pos, end));
      trace := trace + [Run(tid, false)];
      if found {
        trace := Others(b, start, first, trace, tid);
        found := tail <= pos;
        Search(tid, FindNow(ptr, pos, end), if found then Done(Found) else Next(ptr, pos, end));
        trace := trace + [Run(tid, false)];
      }
    }

    /** One position of the search: whether the pointer is there, published and unclaimed. */
    method LooksAt(tid: nat, ptr: nat, pos: nat, end: nat, a: seq<Move>, b: seq<Move>, c: seq<Move>, e: seq<Move>,
                   ghost start: Queue, ghost first: Move, ghost before: seq<Move>)
      returns (found: bool, ghost trace: seq<Move>)
      requires Valid() && Tracks(start, before, State(), first) && first.tid == tid
      requires Standing(tid) == FindSeq(ptr, pos, end)
      modifies this, cells
      ensures Valid() && Tracks(start, trace, State(), first)
      ensures Standing(tid) == if found then Done(Found) else Next(ptr, pos, end)
    {
      hide Tracks, Apply, At, Inv, Next, State, Standing;
      var v;
      found, v, trace := Glance(tid, ptr, pos, end, a, b, start, first, before);
      if found { found, trace := Recheck(tid, ptr, pos, end, v, c, e, start, first, trace); }
    }

    /** The search range, with a stale tail clamped to one round behind the head. */
    method Range(tid: nat, ptr: nat, a: seq<Move>, b: seq<Move>,
           ghost start: Queue, ghost first: Move, ghost before: seq<Move>)
      returns (from: nat, end: nat, ghost trace: seq<Move>)
      requires Valid() && Tracks(start, before, State(), first) && first.tid == tid && Standing(tid) == FindTail(ptr)
      modifies this, cells
      ensures Valid() && Tracks(start, trace, State(), first)
      ensures Standing(tid) == if end <= from then Done(NotFound) else FindSeq(ptr, from, end)
    {
      hide Tracks, Apply, At, Inv;
      trace := Others(a, start, first, before, tid);
      from := tail;
      Search(tid, FindTail(ptr), FindHead(ptr, from));
      trace := Others(b, start, first, trace + [Run(tid, false)], tid);
      end := head;
      var low := if end > from && end - from > cells.Length then end - cells.Length else from;
      Search(tid, FindHead(ptr, from), if end <= from then Done(NotFound) else FindSeq(ptr, low, end));
      from := low;
      trace := trace + [Run(tid, false)];
    }

    /** lf_mpmc_queue_try_find_ptr: what it answers is what FindSound and FindComplete say. */
    method TryFindPtr(tid: nat, ptr: nat, others: seq<seq<Move>>) returns (r: Ret, ghost trace: seq<Move>)
      requires Valid() && Inv(State()) && (Standing(tid).Idle? || Standing(tid).Done?)
      modifies this, cells
      ensures Valid() && Tracks(old(State()), trace, State(), Start(tid, Find(ptr)))
      ensures Standing(tid) == Done(r) && (r.Found? || r.NotFound?)
    {
      hide Tracks, Apply, Inv, At, State, Standing;
      ghost var start, first := State(), Start(tid, Find(ptr));
      trace := [first];
      TracksStart(start, tid, Find(ptr));
      Stand(tid, Begin(Find(ptr)));
      if ptr == 0 { return NotFound, trace; }
      var from, end;
      from, end, trace := Range(tid, ptr, Pause(others, 0), Pause(others, 1), start, first, trace);
      if end <= from { return NotFound, trace; }
      var pos, k := from, 2;
      while pos < end
        invariant Valid() && Tracks(start, trace, State(), first) && from <= pos <= end
        invariant Standing(tid) == if pos < end then FindSeq(ptr, pos, end) else Done(NotFound)
      {
        var found;
        found, trace := LooksAt(tid, ptr, pos, end, Pause(others, k), Pause(others, k + 1), Pause(others, k + 2),
                                Pause(others, k + 3), start, first, trace);
        if found { return Found, trace; }
        pos, k := pos + 1, k + 4;
      }
      return NotFound, trace;
    }
  }

  /** The run so far: from `start` by these moves to q, in which first.tid started nothing but `first`. */
  ghost predicate Tracks(start: Queue, trace: seq<Move>, q: Queue, first: Move) {
    && |start.buf| > 0 && Inv(start)
    && q == After(start, trace) && Inv(q)
    && trace != [] && trace[0] == first && first.Start?
    && forall i :: 0 < i < |trace| && trace[i].tid == first.tid ==> trace[i].Run?
  }

  /** Whatever first.tid does next goes on from here. */
  ghost predicate Ready(start: Queue, trace: seq<Move>, q: Queue, first: Move) {
    && Tracks(start, trace, q, first) && Inv(q) && |q.buf| > 0
    && Tracks(start, trace + [Run(first.tid, false)], Apply(q, Run(first.tid, false)), first)
    && Tracks(start, trace + [Run(first.tid, true)], Apply(q, Run(first.tid, true)), first)
  }

  lemma AfterSnoc(q: Queue, moves: seq<Move>, m: Move)
    requires |q.buf| > 0
    ensures After(q, moves + [m]) == Apply(After(q, moves), m)
  {
    hide Apply;
    AfterSplit(q, moves + [m], |moves|);
    assert (moves + [m])[..|moves|] == moves && (moves + [m])[|moves|..] == [m];
    AfterCons(After(q, moves), m, []);
    assert [m] + [] == [m];
  }

  lemma TracksMove(start: Queue, trace: seq<Move>, q: Queue, first: Move, m: Move)
    requires Tracks(start, trace, q, first) && (m.tid != first.tid || m.Run?)
    ensures |q.buf| > 0 && Tracks(start, trace + [m], Apply(q, m), first)
  {
    hide Apply, Inv;
    InvSize(q);
    AfterSnoc(start, trace, m);
    MoveInv(q, m);
  }

  lemma TracksReady(start: Queue, trace: seq<Move>, q: Queue, first: Move)
    requires Tracks(start, trace, q, first)
    ensures Ready(start, trace, q, first)
  {
    hide Apply, Inv;
    InvSize(q);
    TracksMove(start, trace, q, first, Run(first.tid, false));
    TracksMove(start, trace, q, first, Run(first.tid, true));
  }

  lemma TracksStart(q: Queue, tid: nat, call: Call)
    requires Inv(q) && (At(q, tid).Idle? || At(q, tid).Done?)
    ensures |q.buf| > 0 && Tracks(q, [Start(tid, call)], Goto(q, tid, Begin(call)), Start(tid, call))
  {
    hide Inv;
    InvSize(q);
    MoveInv(q, Start(tid, call));
    AfterCons(q, Start(tid, call), []);
    assert [Start(tid, call)] + [] == [Start(tid, call)];
  }

  /** What the others do in pause k. */
  function Pause(others: seq<seq<Move>>, k: nat): (moves: seq<Move>)
    ensures Left(others, k) == 0 ==> moves == []
  {
    if k < |others| then others[k] else []
  }

  function Left<T>(s: seq<T>, k: nat): nat {
    if k < |s| then |s| - k else 0
  }

  /** At the ends nobody can be ahead: who reloads in peace does not reload in vain. */
  lemma AtEnds(q: Queue)
    requires Inv(q)
    ensures |q.buf| > 0 && CellOf(q, q.head).turn <= q.head && CellOf(q, q.tail).turn <= q.tail + 1
  {
    hide Slot;
    NothingBehindHead(q);
    if q.tail < q.head { assert CellOk(q, q.tail); }
  }

  /** The cell of a position is its remainder by the capacity, which masking computes for powers of two. */
  lemma {:induction false} SlotIsRemainder(n: nat, p: nat)
    requires n > 0
    ensures Slot(n, p) == p % n
    decreases p
  {
    ModSmall(n, p);
    if p >= n {
      SlotIsRemainder(n, p - n);
      ModSmall(n, p - n);
    }
  }
}
