/** A process that dies at any store of a tlsf_realloc that cuts the block in place. */
module CutCrash {
  import opened Mapping
  import opened Heap
  import opened FreeLists
  import opened Invariant
  import opened Abstraction
  import opened ReallocProof
  import opened Search
  import opened Outcomes
  import opened Refinement
  import opened Blocks
  import opened Runs
  import opened UndoLog
  import opened MallocSteps
  import opened FreeSteps
  import opened MallocCrash
  import opened CrashFacts
  import opened GrowCrash

  /** The records of the shrinking branch. */
  function CutOpening(b: nat): seq<Step> {
    [Records(FlagsAt(b)), Records(UsedAt)]
  }

  /** The shrinking branch of realloc_try_inplace, when there is something to cut off. */
  function ShrinkActs(h: Heap, b: nat, needed: nat): seq<Act> {
    Acts(CutOpening(b)) + SplitActs(h, b, needed)
    + [Do(Stores(UsedAt, Number(h.used - 64 * (Get(h, b).size - needed))))]
  }

  /** The log while the cut is made. */
  function CutLog(h: Heap, b: nat): seq<Rec>
    requires b < |h.mem|
  {
    [Rec(FlagsAt(b), Flags(h.mem[b].size, h.mem[b].free, h.mem[b].prevFree)), Rec(UsedAt, Number(h.used))]
  }

  /** A live block that can be cut. */
  ghost predicate Cuts(h: Heap, s: Shape, b: nat, needed: nat) {
    && Core(h, s) && h.log == [] && Walk(h.mem, 0) == s.blocks && InRange(h.mem, s.blocks)
    && b in s.blocks && b < |h.mem| < MAX_UNITS && !h.mem[b].free && b !in s.free
    && MIN_BLOCK <= needed && needed + MIN_BLOCK <= h.mem[b].size && b + h.mem[b].size <= |h.mem|
  }

  // ---------------------------------------------------------------- the stores are the operation

  lemma OpeningRuns(h: Heap, b: nat)
    requires h.log == [] && b < |h.mem|
    ensures Exec(h, CutOpening(b)) == h.(log := CutLog(h, b)) && Journaled(h, CutOpening(b))
    ensures Push(Push(h, FlagsAt(b)).h, UsedAt) == Go(h.(log := CutLog(h, b))) && Push(h, FlagsAt(b)).Go?
  {
    hide Recover;
    var steps := CutOpening(b);
    var g := Push(h, FlagsAt(b)).h;
    assert steps[1..] == [Records(UsedAt)] && steps[1..][1..] == [];
    assert Exec(h, steps) == Exec(g, steps[1..]);
    assert Exec(g, steps[1..]) == Exec(Push(g, UsedAt).h, []);
    assert Journaled(Push(g, UsedAt).h, []);
    assert Journaled(g, steps[1..]);
  }

  lemma SameSplit(h: Heap, g: Heap, b: nat, needed: nat)
    requires g == h.(log := g.log)
    ensures SplitActs(g, b, needed) == SplitActs(h, b, needed)
  {
    hide Class, Footer;
    SameHeads(g, b, needed);
    SameHeads(h, b, needed);
  }

  lemma CutRun(h: Heap, s: Shape, b: nat, needed: nat)
    requires Cuts(h, s, b, needed)
    ensures Shrink(h, b, needed) == Go(Run(h, ShrinkActs(h, b, needed)))
  {
    hide Core, Walk, Run, SplitActs, Split, Exec, CutOpening, Journaled;
    OpeningRuns(h, b);
    var g := h.(log := CutLog(h, b));
    SameSplit(h, g, b, needed);
    RunExec(h, CutOpening(b));
    SplitRuns(g, b, needed);
    SplitHead(g, b, needed);
    var r := Split(g, b, needed);
    var last := Do(Stores(UsedAt, Number(h.used - 64 * (h.mem[b].size - needed))));
    RunAppend(h, Acts(CutOpening(b)), SplitActs(h, b, needed));
    RunAppend(h, Acts(CutOpening(b)) + SplitActs(h, b, needed), [last]);
    RunOne(r, last, []);
  }

  // ---------------------------------------------------------------- what recovery gives back

  /** The header of b and used_bytes as they were. */
  function Restored(g: Heap, h: Heap, b: nat): Heap
    requires b < |h.mem| == |g.mem|
  {
    var l := h.mem[b];
    g.(mem := g.mem[b := g.mem[b].(size := l.size, free := l.free, prevFree := l.prevFree)], used := h.used, log := [])
  }

  lemma RecoverIs(g: Heap, h: Heap, b: nat)
    requires b < |h.mem| == |g.mem| && g.log == CutLog(h, b)
    ensures Recover(g) == Restored(g, h, b)
  {
    var g1 := Write(g, g.log[1].addr, g.log[1].was);
    assert Undo(g, 2) == Undo(g1, 1);
    var g2 := Write(g1, g.log[0].addr, g.log[0].was);
    assert Undo(g1, 1) == Undo(g2, 0);
  }

  /** So far only the block's own units have changed. */
  ghost predicate Inside(g: Heap, h: Heap, b: nat) {
    && b < |h.mem| == |g.mem| && g.log == CutLog(h, b) && g == h.(mem := g.mem, log := g.log)
    && (forall u :: 0 <= u < |h.mem| && !(b <= u < b + h.mem[b].size) ==> g.mem[u] == h.mem[u])
    && g.mem[b] == h.mem[b].(size := g.mem[b].size)
  }

  lemma InsideGood(g: Heap, h: Heap, s: Shape, b: nat)
    requires Core(h, s) && h.log == [] && InRange(h.mem, s.blocks) && b in s.blocks && Inside(g, h, b)
    ensures Good(Recover(g))
  {
    hide Core, Recover;
    RecoverIs(g, h, b);
    var r := Restored(g, h, b);
    PayloadEdit(h, r, s, b);
    assert Wf(r, s) by { hide PayloadKept; }
  }

  /** A store into the block's own units behind the header, or of its size. */
  predicate Inner(a: Act, l: Line, b: nat) {
    match a
    case Do(Stores(UsedAt, _)) => false
    case Do(Stores(FlagsAt(u), w)) =>
      b < u < b + l.size || (u == b && l.size > 0 && w.Flags? && w.free == l.free && w.prevFree == l.prevFree)
    case Do(Stores(x, _)) => b < x.u < b + l.size
    case NextTo(u, _) => b < u < b + l.size
    case PrevTo(u, _) => b < u < b + l.size
    case _ => false
  }

  lemma PutInside(g: Heap, h: Heap, b: nat, u: nat, l: Line)
    requires Inside(g, h, b) && b <= u < b + h.mem[b].size && (u == b ==> l == h.mem[b].(size := l.size))
    ensures Inside(Put(g, u, l), h, b)
  {
  }

  lemma InnerStep(g: Heap, a: Act, h: Heap, b: nat)
    requires Inside(g, h, b) && Inner(a, h.mem[b], b)
    ensures Inside(Run1(g, a), h, b)
  {
    match a
    case Do(Stores(x, w)) =>
      WriteIsEdit(g, x, w);
      hide Write, Inside;
      HeaderInside(g, h, b);
      PutInside(g, h, b, x.u, Edit(Get(g, x.u), x, w));
    case NextTo(u, p) => PutInside(g, h, b, u, Get(g, u).(next := p));
    case PrevTo(u, p) => PutInside(g, h, b, u, Get(g, u).(prev := p));
  }

  lemma HeaderInside(g: Heap, h: Heap, b: nat)
    requires Inside(g, h, b)
    ensures b < |h.mem| == |g.mem| && g.mem[b] == h.mem[b].(size := g.mem[b].size)
  {
  }

  lemma {:induction false} InnerRun(g: Heap, acts: seq<Act>, h: Heap, b: nat)
    requires Inside(g, h, b) && forall i :: 0 <= i < |acts| ==> Inner(acts[i], h.mem[b], b)
    ensures Inside(Run(g, acts), h, b)
    decreases |acts|
  {
    hide Inner, Run1;
    if acts != [] {
      InnerStep(g, acts[0], h, b);
      InnerRun(Run1(g, acts[0]), acts[1..], h, b);
    }
  }

  // ---------------------------------------------------------------- the first stores do no harm

  /** The stores into the block itself: the remainder's header, the size and, at the end of the heap, the footer. */
  function OwnActs(h: Heap, b: nat, needed: nat): seq<Act>
    requires b < |h.mem| && h.mem[b].size > 0
  {
    var rest, left := b + needed, SubUnits(h.mem[b].size, needed);
    var x := b + h.mem[b].size;
    HeaderActs(rest, left) + [SizeAct(h.mem[b], b, needed)]
    + (if x < |h.mem| then [] else
         [Do(Stores(PrevSizeAt(x - 1), Number(left))), PrevTo(rest, Null), NextTo(rest, h.matrix[Class(left)])])
  }

  /** The stores after them. */
  function OuterActs(h: Heap, b: nat, needed: nat): seq<Act>
    requires b < |h.mem| && h.mem[b].size > 0
  {
    var rest, left := b + needed, SubUnits(h.mem[b].size, needed);
    var x, k := b + h.mem[b].size, Class(left);
    (if x < |h.mem| then
       [Do(Stores(FlagsAt(x), Flags(h.mem[x].size, h.mem[x].free, true))), Do(Stores(PrevSizeAt(x), Number(left)))]
       + [Do(Stores(PrevSizeAt(x - 1), Number(left))), PrevTo(rest, Null), NextTo(rest, h.matrix[k])]
     else [])
    + (match h.matrix[k] case At(n) => [PrevTo(n, At(rest))] case Null => [])
    + [HeadTo(k, At(rest)), BitOn(k), RowOn(k / 16)]
  }

  lemma SplitParts(h: Heap, b: nat, needed: nat)
    requires b < |h.mem| < MAX_UNITS && 0 < needed < h.mem[b].size && b + h.mem[b].size <= |h.mem|
    ensures SplitActs(h, b, needed) == OwnActs(h, b, needed) + OuterActs(h, b, needed)
  {
    hide Carve, HeaderActs, Class;
    SameHeads(h, b, needed);
    CutActsAre(h, b, needed);
    hide CutActs;
  }

  lemma OwnInner(h: Heap, b: nat, needed: nat)
    requires b < |h.mem| < MAX_UNITS && MIN_BLOCK <= needed && needed + MIN_BLOCK <= h.mem[b].size
    requires b + h.mem[b].size <= |h.mem|
    ensures var acts := OwnActs(h, b, needed); forall i :: 0 <= i < |acts| ==> Inner(acts[i], h.mem[b], b)
    ensures |OwnActs(h, b, needed)| == if b + h.mem[b].size < |h.mem| then 9 else 12
  {
    hide Class;
  }

  // ---------------------------------------------------------------- what the others leave

  /** The block behind b was told a wrong size of its left neighbour. */
  ghost predicate Misled(g: Heap, h: Heap, b: nat) {
    && b < |h.mem| == |g.mem| && g.log == CutLog(h, b)
    && var x := b + h.mem[b].size;
    && b < x < |g.mem| && g.mem[x].prevFree && g.mem[x].prevSize != h.mem[b].size
    && (forall u :: 0 <= u < b ==> g.mem[u].size == h.mem[u].size)
  }

  lemma MisledIsBad(g: Heap, h: Heap, s: Shape, b: nat)
    requires Misled(g, h, b) && Walk(h.mem, 0) == s.blocks && b in s.blocks
    ensures !Good(Recover(g))
  {
    hide Walk, Good, Recover;
    RecoverIs(g, h, b);
    var r := Restored(g, h, b);
    var x := b + h.mem[b].size;
    WalkMeets(h.mem, r.mem, 0, b);
    if Good(r) { NeighbourSize(r, b, x); }
  }

  lemma NeighbourSize(h: Heap, b: nat, x: nat)
    requires Good(h) && b in Walk(h.mem, 0) && b < x < |h.mem| && x == b + h.mem[b].size && h.mem[x].prevFree
    ensures h.mem[x].prevSize == h.mem[b].size
  {
    hide Good, Walk;
    TilesExactly(h, b);
    TilesExactly(h, x);
    var y := x - h.mem[x].prevSize;
    TilesExactly(h, y);
  }

  /** A list head that is no block, or that has a left neighbour. */
  ghost predicate BadHead(g: Heap, h: Heap, b: nat, k: nat, rest: nat) {
    && b < |h.mem| == |g.mem| && g.log == CutLog(h, b) && k < CLASSES
    && b < rest < b + h.mem[b].size && b + h.mem[b].size == |g.mem|
    && (forall u :: 0 <= u < b ==> g.mem[u].size == h.mem[u].size)
    && (g.matrix[k] == At(rest)
        || (g.matrix[k].At? && g.matrix[k].u < |g.mem| && g.mem[g.matrix[k].u].prev.At?))
  }

  lemma BadHeadIsBad(g: Heap, h: Heap, s: Shape, b: nat, k: nat, rest: nat)
    requires BadHead(g, h, b, k, rest) && Walk(h.mem, 0) == s.blocks && b in s.blocks
    ensures !Good(Recover(g))
  {
    hide Walk, Good, Recover;
    RecoverIs(g, h, b);
    var r := Restored(g, h, b);
    WalkMeets(h.mem, r.mem, 0, b);
    if Good(r) { HeadsAreBlocks(r, b, k, rest); }
  }

  lemma HeadsAreBlocks(h: Heap, b: nat, k: nat, rest: nat)
    requires Good(h) && b in Walk(h.mem, 0) && b < rest < b + h.mem[b].size && b < |h.mem| && k < CLASSES
    ensures h.matrix[k] != At(rest)
    ensures h.matrix[k].At? ==> h.matrix[k].u < |h.mem| && h.mem[h.matrix[k].u].prev == Null
  {
    var s := ShapeOf(h);
    hide Walk, Class, Bits, PrevSizes, Clients, Total, Linked;
    if h.matrix[k].At? { assert h.matrix[k].u in s.blocks; }
  }

  // ---------------------------------------------------------------- every crash point

  /** A store that touches neither the header of x nor one up to b, nor the log. */
  predicate Leaves(a: Act, b: nat, x: nat) {
    match a
    case Do(Stores(UsedAt, _)) => true
    case Do(Stores(FlagsAt(u), w)) => b < u && u != x
    case Do(Stores(PrevSizeAt(u), _)) => u != x
    case Do(Stores(_, _)) => true
    case Do(_) => false
    case Fill(_, _) => false
    case _ => true
  }

  lemma LeavesMisled(g: Heap, a: Act, h: Heap, b: nat)
    requires Misled(g, h, b) && Leaves(a, b, b + h.mem[b].size)
    ensures Misled(Run1(g, a), h, b)
  {
  }

  lemma {:induction false} MisledRun(g: Heap, acts: seq<Act>, h: Heap, b: nat)
    requires Misled(g, h, b) && forall i :: 0 <= i < |acts| ==> Leaves(acts[i], b, b + h.mem[b].size)
    ensures Misled(Run(g, acts), h, b)
    decreases |acts|
  {
    hide Misled, Leaves, Run1;
    if acts != [] {
      LeavesMisled(g, acts[0], h, b);
      MisledRun(Run1(g, acts[0]), acts[1..], h, b);
    }
  }

  lemma MisledAllBad(g: Heap, acts: seq<Act>, h: Heap, s: Shape, b: nat)
    requires Misled(g, h, b) && forall i :: 0 <= i < |acts| ==> Leaves(acts[i], b, b + h.mem[b].size)
    requires Walk(h.mem, 0) == s.blocks && b in s.blocks
    ensures AllBad(g, acts)
  {
    hide Misled, Leaves, Walk, Good, Recover, Run;
    forall i | 0 < i <= |acts| ensures !Good(Recover(Run(g, acts[..i]))) {
      MisledRun(g, acts[..i], h, b);
      MisledIsBad(Run(g, acts[..i]), h, s, b);
    }
  }

  /** The block behind b has the flag but a prev_size that happens to be right: still a good heap. */
  lemma FlaggedGood(g: Heap, h: Heap, s: Shape, b: nat)
    requires Cuts(h, s, b, 2) && Inside(g, h, b)
    requires var x := b + h.mem[b].size; x < |h.mem| && h.mem[x].prevSize == h.mem[b].size
    ensures var x := b + h.mem[b].size;
            Good(Recover(Put(g, x, h.mem[x].(prevFree := true))))
  {
    hide Core, Recover, Walk;
    var x := b + h.mem[b].size;
    var f := Put(g, x, h.mem[x].(prevFree := true));
    RecoverIs(f, h, b);
    var r := Restored(f, h, b);
    var h1 := h.(mem := h.mem[x := h.mem[x].(prevFree := true)]);
    FlagCore(h, s, b, x);
    PayloadEdit(h1, r, s, b);
    assert Wf(r, s) by { hide PayloadKept; }
  }

  lemma FlagCore(h: Heap, s: Shape, b: nat, x: nat)
    requires Core(h, s) && InRange(h.mem, s.blocks) && b in s.blocks && b < x < |h.mem| && x == b + h.mem[b].size
    requires h.mem[x].prevSize == h.mem[b].size
    ensures var g := h.(mem := h.mem[x := h.mem[x].(prevFree := true)]); Core(g, s) && InRange(g.mem, s.blocks)
  {
    var g := h.(mem := h.mem[x := h.mem[x].(prevFree := true)]);
    assert Live(g.mem, s.blocks) == Live(h.mem, s.blocks);
    forall c | c in s.blocks ensures ClientOk(g.mem, s.free, c) {
      assert ClientOk(h.mem, s.free, c);
    }
    hide Total, Owned, Live, ClientOk;
    FlagSound(h, g, s, b, x);
  }

  lemma FlagSound(h: Heap, g: Heap, s: Shape, b: nat, x: nat)
    requires Sound(h, s, NOBODY) && b in s.blocks && b < x < |h.mem| && x == b + h.mem[b].size
    requires g == h.(mem := h.mem[x := h.mem[x].(prevFree := true)]) && h.mem[x].prevSize == h.mem[b].size
    ensures Sound(g, s, NOBODY)
  {
    SoundBut(h, s, x);
    SoundRange(h, s, NOBODY);
    FrameKeepBut(h, g, s, x);
    hide Lists, Bits, Tiled;
    forall c | c in s.blocks && c != NOBODY ensures PrevRight(g.mem, s.blocks, c) {
      if c != x { assert PrevRight(h.mem, s.blocks, c); }
    }
  }

  lemma FrameKeepBut(h: Heap, g: Heap, s: Shape, x: nat)
    requires Sound(h, s, x) && x < |h.mem| && g == h.(mem := h.mem[x := h.mem[x].(prevFree := true)])
    ensures Tiled(g.mem, s.blocks) && Lists(g.mem, g.matrix, s.free, s.stamp) && Bits(g.matrix, g.sl, g.fl)
  {
    ListsKeep(h.mem, g.mem, h.matrix, s.free, s.stamp);
    hide Lists, Bits;
    TilesKeep(h.mem, g.mem, s.blocks);
  }

  /** The rest of the insertion at the end of the heap. */
  predicate HeadAct(a: Act, k: nat, rest: nat) {
    match a
    case HeadTo(j, p) => j == k && p == At(rest)
    case BitOn(_) => true
    case RowOn(_) => true
    case Do(Stores(UsedAt, _)) => true
    case _ => false
  }

  lemma HeadStep(g: Heap, a: Act, h: Heap, b: nat, k: nat, rest: nat)
    requires HeadAct(a, k, rest)
    requires BadHead(g, h, b, k, rest) || (a == HeadTo(k, At(rest)) && NearHead(g, h, b, k, rest))
    ensures BadHead(Run1(g, a), h, b, k, rest)
  {
  }

  /** Everything but the list head itself. */
  ghost predicate NearHead(g: Heap, h: Heap, b: nat, k: nat, rest: nat) {
    && b < |h.mem| == |g.mem| && g.log == CutLog(h, b) && k < CLASSES
    && b < rest < b + h.mem[b].size && b + h.mem[b].size == |g.mem|
    && (forall u :: 0 <= u < b ==> g.mem[u].size == h.mem[u].size)
  }

  lemma {:induction false} HeadRun(g: Heap, acts: seq<Act>, h: Heap, b: nat, k: nat, rest: nat)
    requires BadHead(g, h, b, k, rest) && forall i :: 0 <= i < |acts| ==> HeadAct(acts[i], k, rest)
    ensures BadHead(Run(g, acts), h, b, k, rest)
    decreases |acts|
  {
    hide BadHead, HeadAct, Run1;
    if acts != [] {
      HeadStep(g, acts[0], h, b, k, rest);
      HeadRun(Run1(g, acts[0]), acts[1..], h, b, k, rest);
    }
  }

  lemma HeadAllBad(g: Heap, acts: seq<Act>, h: Heap, s: Shape, b: nat, k: nat, rest: nat)
    requires acts != [] && forall i :: 0 <= i < |acts| ==> HeadAct(acts[i], k, rest)
    requires BadHead(g, h, b, k, rest) || (acts[0] == HeadTo(k, At(rest)) && NearHead(g, h, b, k, rest))
    requires Walk(h.mem, 0) == s.blocks && b in s.blocks
    ensures AllBad(g, acts)
  {
    hide BadHead, NearHead, HeadAct, Walk, Good, Recover, Run, Run1;
    HeadStep(g, acts[0], h, b, k, rest);
    var r := Run1(g, acts[0]);
    forall i | 0 < i <= |acts| ensures !Good(Recover(Run(g, acts[..i]))) {
      assert acts[..i] == [acts[0]] + acts[1..i];
      RunOne(g, acts[0], acts[1..i]);
      HeadRun(r, acts[1..i], h, b, k, rest);
      BadHeadIsBad(Run(g, acts[..i]), h, s, b, k, rest);
    }
  }

  function LastAct(h: Heap, b: nat, needed: nat): Act
    requires b < |h.mem|
  {
    Do(Stores(UsedAt, Number(h.used - 64 * (h.mem[b].size - needed))))
  }

  /** At the end of the heap. */
  lemma OuterBadAtEnd(h: Heap, g: Heap, s: Shape, b: nat, needed: nat)
    requires Cuts(h, s, b, needed) && Inside(g, h, b) && b + h.mem[b].size == |h.mem|
    ensures AllBad(g, OuterActs(h, b, needed) + [LastAct(h, b, needed)])
  {
    hide Core, Walk, Class, AllBad;
    var rest, left := b + needed, h.mem[b].size - needed;
    var k := Class(left);
    var tail := [HeadTo(k, At(rest)), BitOn(k), RowOn(k / 16)] + [LastAct(h, b, needed)];
    if h.matrix[k].At? {
      var n := h.matrix[k].u;
      HeadInside(h, s, b, k);
      var first := PrevTo(n, At(rest));
      var r := Run1(g, first);
      assert BadHead(r, h, b, k, rest);
      BadHeadIsBad(r, h, s, b, k, rest);
      OneBad(g, first);
      RunOne(g, first, []);
      HeadAllBad(r, tail, h, s, b, k, rest);
      BadAppend(g, [first], tail);
      assert OuterActs(h, b, needed) + [LastAct(h, b, needed)] == [first] + tail;
    } else {
      HeadAllBad(g, tail, h, s, b, k, rest);
      assert OuterActs(h, b, needed) + [LastAct(h, b, needed)] == tail;
    }
  }

  lemma HeadInside(h: Heap, s: Shape, b: nat, k: nat)
    requires Core(h, s) && k < CLASSES && h.matrix[k].At? && b !in s.free
    ensures h.matrix[k].u < |h.mem| && h.matrix[k].u != b
  {
    CoreSound(h, s);
    hide Sound, Clients, Total;
    HeadIsFree(h, s, NOBODY, k);
  }

  /** The two stores into the header behind b, and what follows. */
  lemma OuterParts(h: Heap, b: nat, needed: nat)
    requires b < |h.mem| && 0 < needed < h.mem[b].size && b + h.mem[b].size < |h.mem|
    ensures var x := b + h.mem[b].size; var acts := OuterActs(h, b, needed) + [LastAct(h, b, needed)];
            && acts == [Do(Stores(FlagsAt(x), Flags(h.mem[x].size, h.mem[x].free, true)))]
                       + ([Do(Stores(PrevSizeAt(x), Number(h.mem[b].size - needed)))] + acts[2..])
            && forall i :: 0 <= i < |acts[2..]| ==> Leaves(acts[2..][i], b, x)
  {
    hide Class;
  }

  lemma FlagStore(g: Heap, h: Heap, b: nat)
    requires Inside(g, h, b) && b < b + h.mem[b].size < |h.mem|
    ensures var x := b + h.mem[b].size;
            && Run1(g, Do(Stores(FlagsAt(x), Flags(h.mem[x].size, h.mem[x].free, true))))
               == Put(g, x, h.mem[x].(prevFree := true))
            && (h.mem[x].prevSize != h.mem[b].size ==> Misled(Put(g, x, h.mem[x].(prevFree := true)), h, b))
            && forall left: nat :: left != h.mem[b].size ==>
                 Misled(Run1(Put(g, x, h.mem[x].(prevFree := true)), Do(Stores(PrevSizeAt(x), Number(left)))), h, b)
  {
  }

  /** With a block behind: from the second store into its header on, or from the first if prev_size is wrong. */
  lemma OuterBadInside(h: Heap, g: Heap, s: Shape, b: nat, needed: nat)
    requires Cuts(h, s, b, needed) && Inside(g, h, b) && b + h.mem[b].size < |h.mem|
    ensures var acts := OuterActs(h, b, needed) + [LastAct(h, b, needed)]; var x := b + h.mem[b].size;
            && acts != [] && Run1(g, acts[0]) == Put(g, x, h.mem[x].(prevFree := true))
            && AllBad(Run1(g, acts[0]), acts[1..])
            && (h.mem[x].prevSize != h.mem[b].size ==> AllBad(g, acts))
  {
    hide Core, Walk, Class, AllBad, Misled, OuterActs, Leaves, Run1, Inside;
    var x := b + h.mem[b].size;
    var acts := OuterActs(h, b, needed) + [LastAct(h, b, needed)];
    OuterParts(h, b, needed);
    FlagStore(g, h, b);
    var first, second := acts[0], Do(Stores(PrevSizeAt(x), Number(h.mem[b].size - needed)));
    var r := Run1(g, first);
    var q := Run1(r, second);
    MisledIsBad(q, h, s, b);
    OneBad(r, second);
    RunOne(r, second, []);
    MisledAllBad(q, acts[2..], h, s, b);
    BadAppend(r, [second], acts[2..]);
    assert acts[1..] == [second] + acts[2..];
    if h.mem[x].prevSize != h.mem[b].size {
      MisledIsBad(r, h, s, b);
      OneBad(g, first);
      RunOne(g, first, []);
      BadAppend(g, [first], acts[1..]);
      assert acts == [first] + acts[1..];
    }
  }

  /** How many stores and records leave something that recovery makes good. */
  function Harmless(h: Heap, b: nat): nat
    requires b < |h.mem|
  {
    var x := b + h.mem[b].size;
    if x >= |h.mem| then 14 else if h.mem[x].prevSize == h.mem[b].size then 12 else 11
  }

  function Outer(h: Heap, b: nat, needed: nat): seq<Act>
    requires b < |h.mem| && h.mem[b].size > 0
  {
    OuterActs(h, b, needed) + [LastAct(h, b, needed)]
  }

  lemma ShrinkParts(h: Heap, b: nat, needed: nat)
    requires b < |h.mem| < MAX_UNITS && 0 < needed < h.mem[b].size && b + h.mem[b].size <= |h.mem|
    ensures ShrinkActs(h, b, needed) == Acts(CutOpening(b)) + (OwnActs(h, b, needed) + Outer(h, b, needed))
  {
    hide SplitActs, OwnActs, OuterActs;
    SplitParts(h, b, needed);
  }

  /** While the records are made and the block's own units are written. */
  lemma EarlyGood(h: Heap, s: Shape, b: nat, needed: nat, i: nat)
    requires Cuts(h, s, b, needed) && i <= 2 + |OwnActs(h, b, needed)|
    ensures Good(Recover(Run(h, (Acts(CutOpening(b)) + OwnActs(h, b, needed))[..i])))
  {
    hide Core, Walk, Run, OwnActs, Good, Recover, Inside, Inner, Exec, Journaled;
    var own := OwnActs(h, b, needed);
    OpeningRuns(h, b);
    if i <= 2 {
      assert (Acts(CutOpening(b)) + own)[..i] == Acts(CutOpening(b)[..i]);
      RunExec(h, CutOpening(b)[..i]);
      JournaledPrefix(h, CutOpening(b), i);
      CrashRecovers(h, CutOpening(b)[..i]);
      FewRecords(h, CutOpening(b)[..i]);
      CoreGood(h, s);
    } else {
      var g := h.(log := CutLog(h, b));
      assert (Acts(CutOpening(b)) + own)[..i] == Acts(CutOpening(b)) + own[..i - 2];
      RunExec(h, CutOpening(b));
      RunAppend(h, Acts(CutOpening(b)), own[..i - 2]);
      OwnInner(h, b, needed);
      StartsInside(h, b);
      InnerRun(g, own[..i - 2], h, b);
      InsideGood(Run(g, own[..i - 2]), h, s, b);
    }
  }

  lemma CoreGood(h: Heap, s: Shape)
    requires Core(h, s) && h.log == []
    ensures Good(h)
  {
    hide Core;
    assert Wf(h, s);
  }

  lemma StartsInside(h: Heap, b: nat)
    requires b < |h.mem|
    ensures Inside(h.(log := CutLog(h, b)), h, b)
  {
  }

  /** From the first store outside the block on. */
  lemma LaterBad(h: Heap, s: Shape, b: nat, needed: nat, g: Heap, j: nat)
    requires Cuts(h, s, b, needed) && Inside(g, h, b) && 0 < j <= |Outer(h, b, needed)|
    ensures Good(Recover(Run(g, Outer(h, b, needed)[..j])))
      <==> j == 1 && b + h.mem[b].size < |h.mem| && h.mem[b + h.mem[b].size].prevSize == h.mem[b].size
  {
    hide Core, Walk, Run, OuterActs, Good, Recover, Inside, Run1;
    var x, acts := b + h.mem[b].size, Outer(h, b, needed);
    if x == |h.mem| {
      OuterBadAtEnd(h, g, s, b, needed);
      assert acts[..j] == (OuterActs(h, b, needed) + [LastAct(h, b, needed)])[..j];
    } else {
      OuterBadInside(h, g, s, b, needed);
      assert acts == OuterActs(h, b, needed) + [LastAct(h, b, needed)];
      if h.mem[x].prevSize == h.mem[b].size {
        assert acts[..j] == [acts[0]] + acts[1..][..j - 1];
        RunOne(g, acts[0], acts[1..][..j - 1]);
        if j == 1 {
          RunNothing(Run1(g, acts[0]));
          Flagged(h, g, s, b, needed);
        }
      } else {
        assert acts[..j] == acts[..j];
      }
    }
  }

  lemma Flagged(h: Heap, g: Heap, s: Shape, b: nat, needed: nat)
    requires Cuts(h, s, b, needed) && Inside(g, h, b)
    requires b + h.mem[b].size < |h.mem| && h.mem[b + h.mem[b].size].prevSize == h.mem[b].size
    ensures Good(Recover(Put(g, b + h.mem[b].size, h.mem[b + h.mem[b].size].(prevFree := true))))
  {
    hide Core, Walk, Good, Recover, Inside;
    assert Cuts(h, s, b, 2);
    FlaggedGood(g, h, s, b);
  }

  lemma CutPoints(h: Heap, s: Shape, b: nat, needed: nat, i: nat)
    requires Cuts(h, s, b, needed) && i <= |ShrinkActs(h, b, needed)|
    ensures Good(Recover(Run(h, ShrinkActs(h, b, needed)[..i]))) <==> i <= Harmless(h, b)
  {
    hide Core, Walk, Run, OwnActs, Outer, Good, Recover, Inside, Inner, ShrinkActs, Exec, Journaled, CutOpening;
    var open, own, outer := Acts(CutOpening(b)), OwnActs(h, b, needed), Outer(h, b, needed);
    ShrinkParts(h, b, needed);
    OwnInner(h, b, needed);
    TwoRecords(b);
    if i <= 2 + |own| {
      assert (open + (own + outer))[..i] == (open + own)[..i];
      EarlyGood(h, s, b, needed, i);
    } else {
      var j := i - 2 - |own|;
      var g0 := h.(log := CutLog(h, b));
      assert (open + (own + outer))[..i] == open + (own + outer[..j]);
      OpeningRuns(h, b);
      RunExec(h, CutOpening(b));
      RunAppend(h, open, own + outer[..j]);
      RunAppend(g0, own, outer[..j]);
      StartsInside(h, b);
      InnerRun(g0, own, h, b);
      LaterBad(h, s, b, needed, Run(g0, own), j);
    }
  }

  lemma TwoRecords(b: nat)
    ensures |CutOpening(b)| == 2
  {
  }

  /**
   * When the process dies in a tlsf_realloc that cuts the block in place, recovery gives back a good heap exactly as
   * long as only the block's own units were written, and its right neighbour's flag if prev_size happened to be right.
   */
  lemma CrashedCut(h: Heap, b: nat, size: nat, uid: nat, i: nat)
    requires Good(h) && ReallocErr(View(h), b, uid) == Ok && b < |h.mem| && size > 0
    requires BlockUnits(size) + MIN_BLOCK <= h.mem[b].size
    requires i <= |ShrinkActs(h, b, BlockUnits(size))|
    ensures Good(Recover(Run(h, ShrinkActs(h, b, BlockUnits(size))[..i]))) <==> i <= Harmless(h, b)
    ensures var r := Realloc(h, b, size, uid).h;
            Commit(Run(h, ShrinkActs(h, b, BlockUnits(size)))) == r && Recover(r) == r && Good(r)
  {
    hide Wf, Run, ShrinkActs, Walk, BlockUnits, Good, Recover, Realloc, OwnerSet, View, ReallocErr, Shrink, Harmless;
    var s := ShapeOf(h);
    var needed := BlockUnits(size);
    UnitsPositive(size);
    LiveIsBlock(h, b, uid);
    ReallocAccepted(h, s, b, size, uid);
    WfCore(h, s);
    LogIsEmpty(h, s);
    ListedIsFree(h, s, b);
    CutPoints(h, s, b, needed, i);
    CutRun(h, s, b, needed);
    LegalInPlace(h, b, size, uid);
    StepGood(h, DoRealloc(b, size, uid));
    ApplyIs(h, b, size, uid);
    NothingLogged(Realloc(h, b, size, uid).h);
  }
}
