/** tlsf_malloc as the list of its single stores and log records, in the order of the code. */
module MallocSteps {
  import opened Mapping
  import opened Heap
  import opened FreeLists
  import opened Invariant
  import opened MallocProof
  import opened UndoLog

  /**
   * One store or one log record; links, list heads and bitmaps are never recorded. `Fill` copies one unit of
   * payload.
   */
  datatype Act =
    | Do(s: Step)
    | NextTo(u: nat, p: Ptr) | PrevTo(u: nat, p: Ptr) | HeadTo(k: nat, p: Ptr)
    | BitOff(k: nat) | RowOff(f: nat) | BitOn(k: nat) | RowOn(f: nat)
    | Fill(u: nat, l: Line)

  function Run1(h: Heap, a: Act): Heap {
    match a
    case Do(s) => Exec1(h, s)
    case NextTo(u, p) => Put(h, u, Get(h, u).(next := p))
    case PrevTo(u, p) => Put(h, u, Get(h, u).(prev := p))
    case HeadTo(k, p) => if k < CLASSES then SetHead(h, k, p) else h
    case BitOff(k) => if k < CLASSES then h.(sl := h.sl[k / 16 := h.sl[k / 16] - {k % 16}]) else h
    case RowOff(f) => h.(fl := h.fl - {f})
    case BitOn(k) => if k < CLASSES then h.(sl := h.sl[k / 16 := h.sl[k / 16] + {k % 16}]) else h
    case RowOn(f) => h.(fl := h.fl + {f})
    case Fill(u, l) => Put(h, u, l)
  }

  function Run(h: Heap, acts: seq<Act>): Heap
    decreases |acts|
  {
    if acts == [] then h else Run(Run1(h, acts[0]), acts[1..])
  }

  // ---------------------------------------------------------------- the stores of tlsf_malloc, in order

  /** remove_from_free_list. */
  function UnlinkActs(h: Heap, b: nat, k: nat): seq<Act>
    requires k < CLASSES
  {
    var u := Unlink(h, b, k);
    [match Get(h, b).prev case At(p) => NextTo(p, Get(h, b).next) case Null => HeadTo(k, Get(h, b).next)]
    + (match Get(h, b).next case At(n) => [PrevTo(n, Get(h, b).prev)] case Null => [])
    + (if u.matrix[k] != Null then []
       else [BitOff(k)] + (if u.sl[k / 16] - {k % 16} == {} then [RowOff(k / 16)] else []))
  }

  /** insert_into_free_list. */
  function InsertActs(h: Heap, b: nat, k: nat): seq<Act>
    requires k < CLASSES
  {
    [PrevTo(b, Null), NextTo(b, h.matrix[k])]
    + (match h.matrix[k] case At(n) => [PrevTo(n, At(b))] case Null => [])
    + [HeadTo(k, At(b)), BitOn(k), RowOn(k / 16)]
  }

  const NO_UIDS: Word := Uids(0, 0, 0, 0)

  /** The header of the remainder. */
  function HeaderActs(u: nat, size: nat): seq<Act> {
    [Do(Stores(FlagsAt(u), Flags(size, true, false))), Do(Stores(SigAt(u), Sig(MAGIC48, false, 0))),
     PrevTo(u, Null), NextTo(u, Null),
     Do(Stores(UidAt(u, 0), NO_UIDS)), Do(Stores(UidAt(u, 1), NO_UIDS)), Do(Stores(UidAt(u, 2), NO_UIDS)),
     Do(Stores(PrevSizeAt(u), Number(0)))]
  }

  /** The size of the block, the block behind the remainder and the footer. */
  function CutActs(h: Heap, b: nat, size: nat): seq<Act> {
    var left := SubUnits(Get(h, b).size, size);
    var next := AddUnits(AddUnits(b, size), left);
    [Do(Stores(FlagsAt(b), Flags(size, Get(h, b).free, Get(h, b).prevFree)))]
    + (if next >= |h.mem| then [] else
         [Do(Stores(FlagsAt(next), Flags(Get(h, next).size, Get(h, next).free, true))),
          Do(Stores(PrevSizeAt(next), Number(left)))])
    + [Do(Stores(PrevSizeAt(SubUnits(next, 1)), Number(left)))]
  }

  /** split_block. */
  function SplitActs(h: Heap, b: nat, size: nat): seq<Act> {
    var rest, left := AddUnits(b, size), SubUnits(Get(h, b).size, size);
    HeaderActs(rest, left) + CutActs(h, b, size) + InsertActs(Carve(h, b, size), rest, Class(left))
  }

  /** Everything before mark_block_allocated. */
  function TakeActs(h: Heap, b: nat, total: nat): seq<Act> {
    var k := Class(Get(h, b).size);
    UnlinkActs(h, b, k)
    + (if SubUnits(Get(h, b).size, total) >= MIN_BLOCK then SplitActs(RemoveFree(h, b, k), b, total) else [])
  }

  /** The journaled words of the right neighbour. */
  function NextSteps(h: Heap, next: nat, size: nat, split: bool): seq<Step> {
    [Records(FlagsAt(next)), Stores(FlagsAt(next), Flags(Get(h, next).size, Get(h, next).free, split))]
    + (if split then [Records(PrevSizeAt(next)), Stores(PrevSizeAt(next), Number(size))] else [])
  }

  /** The type word, the unrecorded clearing of all uid words, the owner and used_bytes. */
  function StampSteps(h: Heap, b: nat, uid: nat, dtype: nat): seq<Step> {
    [Records(SigAt(b)), Stores(SigAt(b), Sig(MAGIC48, false, dtype % 0x8000))]
    + [Stores(UidAt(b, 0), NO_UIDS), Stores(UidAt(b, 1), NO_UIDS), Stores(UidAt(b, 2), NO_UIDS)]
    + [Records(UidAt(b, 0)), Stores(UidAt(b, 0), Uids(uid, 0, 0, 0))]
    + [Records(UsedAt), Stores(UsedAt, Number(h.used + Payload(h, b)))]
  }

  function ClaimSteps(h: Heap, b: nat, split: bool, uid: nat, dtype: nat): seq<Step> {
    var next := NextOf(h, b);
    (if next >= |h.mem| then [] else NextSteps(h, next, Get(h, b).size, split)) + StampSteps(h, b, uid, dtype)
  }

  function Acts(steps: seq<Step>): seq<Act> {
    seq(|steps|, i requires 0 <= i < |steps| => Do(steps[i]))
  }

  /** mark_block_allocated. */
  function MarkAct(h: Heap, b: nat): Act {
    Do(Stores(FlagsAt(b), Flags(Get(h, b).size, false, Get(h, b).prevFree)))
  }

  /** All of tlsf_malloc_internal on the block b that it found. */
  function MallocActs(h: Heap, b: nat, total: nat, uid: nat, dtype: nat): seq<Act> {
    TakeActs(h, b, total)
    + [MarkAct(Run(h, TakeActs(h, b, total)), b)]
    + Acts(ClaimSteps(Carved(h, b, total), b, SubUnits(Get(h, b).size, total) >= MIN_BLOCK, uid, dtype))
  }

  // ---------------------------------------------------------------- the stores are the operation

  lemma {:induction false} RunAppend(h: Heap, a: seq<Act>, c: seq<Act>)
    ensures Run(h, a + c) == Run(Run(h, a), c)
    decreases |a|
  {
    hide Run1;
    if a == [] {
      assert a + c == c;
    } else {
      assert (a + c)[1..] == a[1..] + c;
      RunAppend(Run1(h, a[0]), a[1..], c);
    }
  }

  lemma {:induction false} RunExec(h: Heap, steps: seq<Step>)
    ensures Run(h, Acts(steps)) == Exec(h, steps)
    decreases |steps|
  {
    hide Exec1;
    if steps != [] {
      assert Acts(steps)[1..] == Acts(steps[1..]);
      RunExec(Exec1(h, steps[0]), steps[1..]);
    }
  }

  lemma UnlinkRuns(h: Heap, b: nat, k: nat)
    requires k < CLASSES && Get(h, b).prev != At(b)
    ensures Run(h, UnlinkActs(h, b, k)) == RemoveFree(h, b, k)
  {
    var next, prev := Get(h, b).next, Get(h, b).prev;
    var first := match prev case At(p) => NextTo(p, next) case Null => HeadTo(k, next);
    var second := match next case At(n) => [PrevTo(n, prev)] case Null => [];
    var u := Unlink(h, b, k);
    assert Run(h, [first]) == Run1(h, first);
    assert Run(Run1(h, first), second) == u;
    var bits := if u.matrix[k] != Null then []
      else [BitOff(k)] + (if u.sl[k / 16] - {k % 16} == {} then [RowOff(k / 16)] else []);
    RunAppend(h, [first], second);
    RunAppend(h, [first] + second, bits);
    BitsRun(u, k);
  }

  lemma RunOne(h: Heap, a: Act, rest: seq<Act>)
    ensures Run(h, [a] + rest) == Run(Run1(h, a), rest)
    ensures Run(h, [a]) == Run1(h, a)
  {
    hide Run1;
    assert ([a] + rest)[1..] == rest;
    assert [a][1..] == [];
  }

  lemma RunFew(h: Heap, a: Act, b: Act, c: Act)
    ensures Run(h, [a]) == Run1(h, a)
    ensures Run(h, [a, b]) == Run1(Run1(h, a), b)
    ensures Run(h, [a, b, c]) == Run1(Run1(Run1(h, a), b), c)
  {
    hide Run1, Run;
    assert [a, b] == [a] + [b] && [b, c] == [b] + [c] && [a, b, c] == [a] + [b, c];
    RunOne(h, a, [b]);
    RunOne(Run1(h, a), b, [c]);
    RunOne(Run1(Run1(h, a), b), c, []);
    RunOne(h, a, [b, c]);
  }

  lemma BitsRun(u: Heap, k: nat)
    requires k < CLASSES
    ensures Run(u, if u.matrix[k] != Null then []
      else [BitOff(k)] + (if u.sl[k / 16] - {k % 16} == {} then [RowOff(k / 16)] else [])) == ClearBits(u, k)
  {
    RunFew(u, BitOff(k), RowOff(k / 16), RowOff(k / 16));
    hide Run;
    var row := u.sl[k / 16] - {k % 16};
    if u.matrix[k] == Null {
      assert [BitOff(k)] + [RowOff(k / 16)] == [BitOff(k), RowOff(k / 16)];
      assert [BitOff(k)] + [] == [BitOff(k)];
    }
  }

  // Stores into one unit add up.

  predicate OnUnit(a: Act, u: nat) {
    match a
    case Do(Stores(x, _)) => x != UsedAt && x.u == u
    case NextTo(v, _) => v == u
    case PrevTo(v, _) => v == u
    case _ => false
  }

  function Touch(l: Line, a: Act): Line {
    match a
    case Do(Stores(x, w)) => Edit(l, x, w)
    case NextTo(_, p) => l.(next := p)
    case PrevTo(_, p) => l.(prev := p)
    case _ => l
  }

  function Touched(l: Line, acts: seq<Act>): Line
    decreases |acts|
  {
    if acts == [] then l else Touched(Touch(l, acts[0]), acts[1..])
  }

  lemma {:induction false} UnitRuns(h: Heap, acts: seq<Act>, u: nat)
    requires forall i :: 0 <= i < |acts| ==> OnUnit(acts[i], u)
    ensures Run(h, acts) == Put(h, u, Touched(Get(h, u), acts))
    decreases |acts|
  {
    hide Edit, Write;
    if acts == [] {
      PutSame(h, u);
    } else {
      var a, l := acts[0], Touch(Get(h, u), acts[0]);
      assert OnUnit(a, u);
      if a.Do? { WriteIsEdit(h, a.s.a, a.s.w); }
      UnitRuns(Run1(h, a), acts[1..], u);
      PutTwice(h, u, l, Touched(l, acts[1..]));
      Beyond(h, u, l);
      Beyond(h, u, Touched(Get(h, u), acts));
    }
  }

  lemma {:induction false} TouchedAppend(l: Line, a: seq<Act>, c: seq<Act>)
    ensures Touched(l, a + c) == Touched(Touched(l, a), c)
    decreases |a|
  {
    hide Touch;
    if a == [] {
      assert a + c == c;
    } else {
      assert (a + c)[1..] == a[1..] + c;
      TouchedAppend(Touch(l, a[0]), a[1..], c);
    }
  }

  lemma HeaderRuns(h: Heap, u: nat, size: nat)
    ensures Run(h, HeaderActs(u, size))
      == Put(h, u, Line(size, true, false, MAGIC48, false, 0, Null, Null, NO_OWNERS, 0))
  {
    var acts := HeaderActs(u, size);
    UnitRuns(h, acts, u);
    hide Run, Run1, Get;
    HeaderTouched(Get(h, u), u, size);
  }

  lemma HeaderTouched(l: Line, u: nat, size: nat)
    ensures Touched(l, HeaderActs(u, size)) == Line(size, true, false, MAGIC48, false, 0, Null, Null, NO_OWNERS, 0)
  {
    var acts := HeaderActs(u, size);
    var words := [acts[0], acts[1], acts[2], acts[3]];
    var uids := [acts[4], acts[5], acts[6]];
    assert acts == words + (uids + [acts[7]]);
    TouchedAppend(l, words, uids + [acts[7]]);
    TouchedAppend(Touched(l, words), uids, [acts[7]]);
    TouchedFour(l, acts[0], acts[1], acts[2], acts[3]);
    UidsTouched(Touched(l, words), u);
  }

  lemma TouchedFour(l: Line, a: Act, b: Act, c: Act, d: Act)
    ensures Touched(l, [a, b, c, d]) == Touch(Touch(Touch(Touch(l, a), b), c), d)
    ensures Touched(l, [a, b, c]) == Touch(Touch(Touch(l, a), b), c)
    ensures Touched(l, [a, b]) == Touch(Touch(l, a), b)
    ensures Touched(l, [a]) == Touch(l, a)
  {
    hide Touch;
    assert [a, b, c, d] == [a, b] + [c, d] && [a, b, c] == [a, b] + [c];
    TouchedAppend(l, [a, b], [c, d]);
    TouchedAppend(l, [a, b], [c]);
    TouchedTwo(l, a, b);
    TouchedTwo(Touch(Touch(l, a), b), c, d);
  }

  lemma TouchedTwo(l: Line, a: Act, b: Act)
    ensures Touched(l, [a, b]) == Touch(Touch(l, a), b)
    ensures Touched(l, [a]) == Touch(l, a)
  {
    hide Touch;
    assert [a, b][1..] == [b] && [b][1..] == [] && [a][1..] == [];
    assert Touched(l, [a, b]) == Touched(Touch(l, a), [b]);
  }

  lemma UidsTouched(l: Line, u: nat)
    ensures Touched(l, [
        Do(Stores(UidAt(u, 0), NO_UIDS)), Do(Stores(UidAt(u, 1), NO_UIDS)), Do(Stores(UidAt(u, 2), NO_UIDS))])
      == l.(uid := NO_OWNERS)
  {
    var a, b, c := Do(Stores(UidAt(u, 0), NO_UIDS)), Do(Stores(UidAt(u, 1), NO_UIDS)), Do(Stores(UidAt(u, 2), NO_UIDS));
    TouchedFour(l, a, b, c, c);
    assert Touch(Touch(Touch(l, a), b), c).uid == NO_OWNERS;
  }

  lemma PairRuns(h: Heap, b: nat, head: Ptr)
    ensures Run(h, [PrevTo(b, Null), NextTo(b, head)]) == Put(h, b, Get(h, b).(prev := Null, next := head))
  {
    UnitRuns(h, [PrevTo(b, Null), NextTo(b, head)], b);
    TouchedTwo(Get(h, b), PrevTo(b, Null), NextTo(b, head));
  }

  lemma MarksRun(h: Heap, b: nat, k: nat)
    requires k < CLASSES
    ensures Run(h, [HeadTo(k, At(b)), BitOn(k), RowOn(k / 16)]) == SetBits(SetHead(h, k, At(b)), k)
  {
    RunFew(h, HeadTo(k, At(b)), BitOn(k), RowOn(k / 16));
    hide Run;
  }

  lemma InsertRuns(h: Heap, b: nat, k: nat)
    requires k < CLASSES
    ensures Run(h, InsertActs(h, b, k)) == InsertFree(h, b, k)
  {
    hide Run, Run1, SetBits, SetHead, Get;
    var head := h.matrix[k];
    var back := match head case At(n) => [PrevTo(n, At(b))] case Null => [];
    var links, marks := [PrevTo(b, Null), NextTo(b, head)], [HeadTo(k, At(b)), BitOn(k), RowOn(k / 16)];
    PairRuns(h, b, head);
    RunAppend(h, links, back);
    RunAppend(h, links + back, marks);
    BackLinkRuns(Run(h, links), b, head);
    MarksRun(Run(Run(h, links), back), b, k);
  }

  lemma BackLinkRuns(g: Heap, b: nat, head: Ptr)
    ensures Run(g, match head case At(n) => [PrevTo(n, At(b))] case Null => [])
      == (match head case At(n) => Put(g, n, Get(g, n).(prev := At(b))) case Null => g)
  {
    if head.At? { RunFew(g, PrevTo(head.u, At(b)), BitOn(0), BitOn(0)); }
  }

  lemma TellRuns(h: Heap, u: nat, left: nat)
    ensures Run(h, [Do(Stores(FlagsAt(u), Flags(Get(h, u).size, Get(h, u).free, true))),
                    Do(Stores(PrevSizeAt(u), Number(left)))])
      == Put(h, u, Get(h, u).(prevFree := true, prevSize := left))
  {
    var a := Do(Stores(FlagsAt(u), Flags(Get(h, u).size, Get(h, u).free, true)));
    var c := Do(Stores(PrevSizeAt(u), Number(left)));
    UnitRuns(h, [a, c], u);
    TouchedTwo(Get(h, u), a, c);
  }

  lemma WordRuns(h: Heap, u: nat, size: nat)
    ensures Run(h, [Do(Stores(FlagsAt(u), Flags(size, Get(h, u).free, Get(h, u).prevFree)))])
      == Put(h, u, Get(h, u).(size := size))
    ensures Run(h, [Do(Stores(PrevSizeAt(u), Number(size)))]) == Put(h, u, Get(h, u).(prevSize := size))
  {
    var a := Do(Stores(FlagsAt(u), Flags(size, Get(h, u).free, Get(h, u).prevFree)));
    var c := Do(Stores(PrevSizeAt(u), Number(size)));
    RunFew(h, a, a, a);
    RunFew(h, c, c, c);
  }

  /** The stores about the block behind the remainder, if there is one. */
  function TellActs(h: Heap, next: nat, left: nat): seq<Act> {
    if next >= |h.mem| then [] else
      [Do(Stores(FlagsAt(next), Flags(h.mem[next].size, h.mem[next].free, true))),
       Do(Stores(PrevSizeAt(next), Number(left)))]
  }

  lemma TellEffect(h: Heap, g: Heap, next: nat, left: nat)
    requires |g.mem| == |h.mem| && (next < |h.mem| ==> g.mem[next] == h.mem[next])
    ensures Run(g, TellActs(h, next, left)) == Put(g, next, Get(g, next).(prevFree := true, prevSize := left))
  {
    hide Run;
    if next < |h.mem| { TellRuns(g, next, left); } else { RunNothing(g); }
  }

  lemma CutActsAre(h: Heap, b: nat, size: nat)
    requires b < |h.mem| < MAX_UNITS && 0 < size < h.mem[b].size && b + h.mem[b].size <= |h.mem|
    ensures var left, next := h.mem[b].size - size, b + h.mem[b].size;
            CutActs(h, b, size) ==
              [Do(Stores(FlagsAt(b), Flags(size, h.mem[b].free, h.mem[b].prevFree)))]
              + TellActs(h, next, left)
              + [Do(Stores(PrevSizeAt(next - 1), Number(left)))]
  {
  }

  /** The right neighbour of the remainder, if there is one, and the footer lie behind both headers. */
  lemma CutRuns(h: Heap, b: nat, size: nat)
    requires b < |h.mem| < MAX_UNITS && 0 < size < h.mem[b].size && b + h.mem[b].size <= |h.mem|
    ensures var rest, left := AddUnits(b, size), SubUnits(h.mem[b].size, size);
            Run(Put(h, rest, Line(left, true, false, MAGIC48, false, 0, Null, Null, NO_OWNERS, 0)), CutActs(h, b, size))
              == Carve(h, b, size)
  {
    hide Run, Run1, CutActs, TellActs;
    var rest, left := b + size, h.mem[b].size - size;
    var g := Put(h, rest, Line(left, true, false, MAGIC48, false, 0, Null, Null, NO_OWNERS, 0));
    var next := rest + left;
    var first := [Do(Stores(FlagsAt(b), Flags(size, h.mem[b].free, h.mem[b].prevFree)))];
    var last := [Do(Stores(PrevSizeAt(next - 1), Number(left)))];
    CutActsAre(h, b, size);
    WordRuns(g, b, size);
    var g1 := Put(g, b, Get(g, b).(size := size));
    RunAppend(g, first, TellActs(h, next, left));
    RunAppend(g, first + TellActs(h, next, left), last);
    TellEffect(h, g1, next, left);
    WordRuns(Put(g1, next, Get(g1, next).(prevFree := true, prevSize := left)), next - 1, left);
  }

  lemma RunNothing(h: Heap)
    ensures Run(h, []) == h
  {
  }

  lemma SplitRuns(h: Heap, b: nat, size: nat)
    requires b < |h.mem| < MAX_UNITS && 0 < size < h.mem[b].size && b + h.mem[b].size <= |h.mem|
    ensures Run(h, SplitActs(h, b, size)) == Split(h, b, size)
  {
    hide Carve, HeaderActs, CutActs, InsertActs, InsertFree, Class, Run;
    var rest, left := b + size, h.mem[b].size - size;
    HeaderRuns(h, rest, left);
    CutRuns(h, b, size);
    RestSize(h, b, size);
    InsertRuns(Carve(h, b, size), rest, Class(left));
    RunAppend(h, HeaderActs(rest, left), CutActs(h, b, size));
    RunAppend(h, HeaderActs(rest, left) + CutActs(h, b, size), InsertActs(Carve(h, b, size), rest, Class(left)));
  }

  lemma RestSize(h: Heap, b: nat, size: nat)
    requires b < |h.mem| < MAX_UNITS && 0 < size < h.mem[b].size && b + h.mem[b].size <= |h.mem|
    ensures Get(Carve(h, b, size), b + size).size == h.mem[b].size - size
  {
  }

  lemma TakeRuns(h: Heap, s: Shape, b: nat, total: nat)
    requires Sound(h, s, NOBODY) && b in s.free && b < |h.mem| && MIN_BLOCK <= total <= h.mem[b].size
    ensures var g := Run(h, TakeActs(h, b, total));
            Run1(g, MarkAct(g, b)) == Carved(h, b, total)
  {
    hide Run, Class, Sound, RemoveFree, Split, UnlinkActs, SplitActs;
    FreeIsBlock(h, s, NOBODY, b);
    SoundFacts(h, s, NOBODY, b);
    var k, size := Class(h.mem[b].size), h.mem[b].size;
    NotOwnNeighbour(h, s, NOBODY, b);
    UnlinkRuns(h, b, k);
    var h1 := RemoveFree(h, b, k);
    RemoveSound(h, s, NOBODY, b);
    LinksFacts(h.mem, h1.mem, s.free - {b}, b);
    if size - total >= MIN_BLOCK {
      SplitRuns(h1, b, total);
      RunAppend(h, UnlinkActs(h, b, k), SplitActs(h1, b, total));
    } else {
      assert TakeActs(h, b, total) == UnlinkActs(h, b, k);
    }
  }

  /** In a sound heap no free block is its own list neighbour. */
  lemma NotOwnNeighbour(h: Heap, s: Shape, but: nat, b: nat)
    requires Sound(h, s, but) && b in s.free && b < |h.mem|
    ensures h.mem[b].prev != At(b) && h.mem[b].next != At(b)
  {
    hide Class, Tiled, PrevSizes, Bits;
    assert Linked(h.mem, h.matrix, s.free, s.stamp, b);
  }

  // ---------------------------------------------------------------- the journaled half

  lemma {:induction false} ExecAppend(h: Heap, a: seq<Step>, c: seq<Step>)
    ensures Exec(h, a + c) == Exec(Exec(h, a), c)
    decreases |a|
  {
    hide Exec1;
    if a == [] {
      assert a + c == c;
    } else {
      assert (a + c)[1..] == a[1..] + c;
      ExecAppend(Exec1(h, a[0]), a[1..], c);
    }
  }

  /** Like `Journaled`, but uid words may also be written without a record. */
  ghost predicate UidLoose(h: Heap, steps: seq<Step>)
    decreases |steps|
  {
    steps == [] ||
    (&& (steps[0].Stores? ==> InLog(h.log, steps[0].a) || steps[0].a.UidAt?)
     && (steps[0].Records? ==> |h.log| < BUL_ENTRIES && InPool(h, steps[0].a))
     && UidLoose(Exec1(h, steps[0]), steps[1..]))
  }

  lemma {:induction false} LooseAppend(h: Heap, a: seq<Step>, c: seq<Step>)
    requires UidLoose(h, a) && UidLoose(Exec(h, a), c)
    ensures UidLoose(h, a + c)
    decreases |a|
  {
    hide Exec1;
    if a == [] {
      assert a + c == c;
    } else {
      assert (a + c)[1..] == a[1..] + c;
      LooseAppend(Exec1(h, a[0]), a[1..], c);
    }
  }

  lemma {:induction false} LoosePrefix(h: Heap, steps: seq<Step>, i: nat)
    requires UidLoose(h, steps) && i <= |steps|
    ensures UidLoose(h, steps[..i])
    decreases i
  {
    hide Exec1;
    if i > 0 {
      LoosePrefix(Exec1(h, steps[0]), steps[1..], i - 1);
      assert steps[..i][1..] == steps[1..][..i - 1];
    }
  }

  /** Recording a word and then writing it. */
  lemma RecordedStore(h: Heap, a: Addr, w: Word)
    requires |h.log| < BUL_ENTRIES && InPool(h, a)
    ensures var steps := [Records(a), Stores(a, w)];
            Exec(h, steps) == Write(Push(h, a).h, a, w) && UidLoose(h, steps) && Journaled(h, steps)
  {
    hide Write, Read;
    var steps := [Records(a), Stores(a, w)];
    var g := Push(h, a).h;
    assert g.log[|h.log|].addr == a;
    assert steps[1..] == [Stores(a, w)] && steps[1..][1..] == [];
    assert Exec(g, steps[1..]) == Write(g, a, w);
    assert UidLoose(Write(g, a, w), []) && Journaled(Write(g, a, w), []);
    assert UidLoose(g, steps[1..]) && Journaled(g, steps[1..]);
  }

  lemma NextExec(h: Heap, next: nat, size: nat, split: bool)
    requires h.log == [] && next < |h.mem|
    ensures var steps := NextSteps(h, next, size, split);
            Exec(h, steps) == ClaimNext(h, next, size, split).h && UidLoose(h, steps)
  {
    hide Exec, UidLoose, Read;
    var w := Flags(h.mem[next].size, h.mem[next].free, split);
    RecordedStore(h, FlagsAt(next), w);
    var first := [Records(FlagsAt(next)), Stores(FlagsAt(next), w)];
    if split {
      var g := Exec(h, first);
      RecordedStore(g, PrevSizeAt(next), Number(size));
      ExecAppend(h, first, [Records(PrevSizeAt(next)), Stores(PrevSizeAt(next), Number(size))]);
      LooseAppend(h, first, [Records(PrevSizeAt(next)), Stores(PrevSizeAt(next), Number(size))]);
    } else {
      assert NextSteps(h, next, size, split) == first;
    }
  }

  lemma ZeroUids(h: Heap, b: nat)
    ensures var steps := [Stores(UidAt(b, 0), NO_UIDS), Stores(UidAt(b, 1), NO_UIDS), Stores(UidAt(b, 2), NO_UIDS)];
            Exec(h, steps) == Put(h, b, Get(h, b).(uid := NO_OWNERS)) && UidLoose(h, steps)
  {
    var steps := [Stores(UidAt(b, 0), NO_UIDS), Stores(UidAt(b, 1), NO_UIDS), Stores(UidAt(b, 2), NO_UIDS)];
    var acts := [Do(steps[0]), Do(steps[1]), Do(steps[2])];
    assert Acts(steps) == acts;
    RunExec(h, steps);
    UnitRuns(h, acts, b);
    UidsTouched(Get(h, b), b);
    assert steps[1..][1..] == [steps[2]] && [steps[2]][1..] == [];
    hide Exec1, InLog;
    var g := Exec1(Exec1(h, steps[0]), steps[1]);
    assert UidLoose(Exec1(g, steps[2]), []);
    assert UidLoose(g, [steps[2]]);
    assert UidLoose(Exec1(h, steps[0]), steps[1..]);
  }

  function TypeSteps(b: nat, dtype: nat): seq<Step> {
    [Records(SigAt(b)), Stores(SigAt(b), Sig(MAGIC48, false, dtype % 0x8000))]
    + [Stores(UidAt(b, 0), NO_UIDS), Stores(UidAt(b, 1), NO_UIDS), Stores(UidAt(b, 2), NO_UIDS)]
  }

  lemma TypeExec(h: Heap, b: nat, dtype: nat)
    requires |h.log| <= 2 && b < |h.mem|
    ensures var r := Exec(h, TypeSteps(b, dtype)); var g := Push(h, SigAt(b)).h;
            r == Put(g, b, Get(g, b).(sig := MAGIC48, dc := false, dtype := dtype % 0x8000, uid := NO_OWNERS))
    ensures UidLoose(h, TypeSteps(b, dtype))
  {
    hide Exec, UidLoose, Read;
    var w := Sig(MAGIC48, false, dtype % 0x8000);
    var s1 := [Records(SigAt(b)), Stores(SigAt(b), w)];
    var s2 := [Stores(UidAt(b, 0), NO_UIDS), Stores(UidAt(b, 1), NO_UIDS), Stores(UidAt(b, 2), NO_UIDS)];
    RecordedStore(h, SigAt(b), w);
    ZeroUids(Exec(h, s1), b);
    ExecAppend(h, s1, s2);
    LooseAppend(h, s1, s2);
  }

  lemma OwnerExec(h: Heap, b: nat, uid: nat)
    requires |h.log| <= 3 && b < |h.mem| && h.mem[b].uid == NO_OWNERS
    ensures var steps := [Records(UidAt(b, 0)), Stores(UidAt(b, 0), Uids(uid, 0, 0, 0))];
            var g := Push(h, UidAt(b, 0)).h;
            Exec(h, steps) == Put(g, b, Get(g, b).(uid := Get(g, b).uid[0 := uid])) && UidLoose(h, steps)
  {
    hide Exec, UidLoose, Read;
    RecordedStore(h, UidAt(b, 0), Uids(uid, 0, 0, 0));
    assert NO_OWNERS[0 := uid][1 := 0][2 := 0][3 := 0] == NO_OWNERS[0 := uid];
  }

  lemma StampExec(h: Heap, b: nat, uid: nat, dtype: nat)
    requires |h.log| <= 2 && b < |h.mem|
    ensures var steps := StampSteps(h, b, uid, dtype);
            Exec(h, steps) == Stamp(h, b, uid, dtype).h && UidLoose(h, steps)
  {
    hide Exec, UidLoose, Read, TypeSteps;
    var s1 := TypeSteps(b, dtype);
    var s3 := [Records(UidAt(b, 0)), Stores(UidAt(b, 0), Uids(uid, 0, 0, 0))];
    var s4 := [Records(UsedAt), Stores(UsedAt, Number(h.used + Payload(h, b)))];
    TypeExec(h, b, dtype);
    var g2 := Exec(h, s1);
    OwnerExec(g2, b, uid);
    var g3 := Exec(g2, s3);
    RecordedStore(g3, UsedAt, Number(h.used + Payload(h, b)));
    ExecAppend(h, s1, s3);
    ExecAppend(h, s1 + s3, s4);
    LooseAppend(h, s1, s3);
    LooseAppend(h, s1 + s3, s4);
    StampIsThree(h, b, uid, dtype);
  }

  lemma StampIsThree(h: Heap, b: nat, uid: nat, dtype: nat)
    ensures StampSteps(h, b, uid, dtype) == TypeSteps(b, dtype)
      + [Records(UidAt(b, 0)), Stores(UidAt(b, 0), Uids(uid, 0, 0, 0))]
      + [Records(UsedAt), Stores(UsedAt, Number(h.used + Payload(h, b)))]
  {
  }

  lemma ClaimExec(h: Heap, b: nat, split: bool, uid: nat, dtype: nat)
    requires h.log == [] && b < |h.mem| && 0 < h.mem[b].size && b + h.mem[b].size <= |h.mem| < MAX_UNITS
    ensures var steps := ClaimSteps(h, b, split, uid, dtype);
            Exec(h, steps) == Claim(h, b, split, uid, dtype).h && UidLoose(h, steps)
  {
    hide Exec, UidLoose, Read, NextSteps, StampSteps, Stamp, ClaimNext, Recover;
    var next := NextOf(h, b);
    if next < |h.mem| {
      var first := NextSteps(h, next, h.mem[b].size, split);
      NextExec(h, next, h.mem[b].size, split);
      NextWrites(h, next, h.mem[b].size, split);
      var g := Exec(h, first);
      StampExec(g, b, uid, dtype);
      StampSame(h, g, b, uid, dtype);
      ExecAppend(h, first, StampSteps(h, b, uid, dtype));
      LooseAppend(h, first, StampSteps(h, b, uid, dtype));
    } else {
      assert ClaimSteps(h, b, split, uid, dtype) == StampSteps(h, b, uid, dtype);
      StampExec(h, b, uid, dtype);
    }
  }

  lemma StampSame(h: Heap, g: Heap, b: nat, uid: nat, dtype: nat)
    requires g.used == h.used && Get(g, b).size == Get(h, b).size
    ensures StampSteps(g, b, uid, dtype) == StampSteps(h, b, uid, dtype)
  {
  }
}
