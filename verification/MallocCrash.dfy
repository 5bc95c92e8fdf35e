/** A process that dies at any store of tlsf_malloc: when recovery gives back a good heap. */
module MallocCrash {
  import opened Mapping
  import opened Heap
  import opened FreeLists
  import opened Invariant
  import opened Abstraction
  import opened MallocProof
  import opened Search
  import opened Outcomes
  import opened Blocks
  import opened Runs
  import opened UndoLog
  import opened MallocSteps

  // ---------------------------------------------------------------- up to mark_block_allocated

  /** Block b is marked free, but no list head and no left list neighbour leads to it. */
  ghost predicate Lost(g: Heap, b: nat) {
    && b < |g.mem| && b in Walk(g.mem, 0) && g.mem[b].free
    && (forall k :: 0 <= k < CLASSES ==> g.matrix[k] != At(b))
    && (g.mem[b].prev.At? && g.mem[b].prev.u < |g.mem| ==> g.mem[g.mem[b].prev.u].next != At(b))
  }

  lemma LostIsBad(g: Heap, b: nat)
    requires Lost(g, b)
    ensures !Good(g)
  {
    if Good(g) { ListedSomewhere(g, b); }
  }

  lemma ListedSomewhere(g: Heap, b: nat)
    requires Good(g) && b in Walk(g.mem, 0) && g.mem[b].free
    ensures match g.mem[b].prev
            case At(p) => p < |g.mem| && g.mem[p].next == At(b)
            case Null => exists k :: 0 <= k < CLASSES && g.matrix[k] == At(b)
  {
    var s := ShapeOf(g);
    FreeFlags(g, s);
    hide Walk, Class, Tiled, PrevSizes, Bits;
    assert Linked(g.mem, g.matrix, s.free, s.stamp, b);
  }

  /** A store that neither lists b again nor touches a header in front of it, and leaves b marked free. */
  predicate Spares(a: Act, b: nat) {
    match a
    case Do(Stores(FlagsAt(u), Flags(_, free, _))) => u > b || (u == b && free)
    case Do(Stores(x, _)) => !x.FlagsAt?
    case Do(_) => false
    case NextTo(_, p) => p != At(b)
    case PrevTo(u, _) => u != b
    case HeadTo(_, p) => p != At(b)
    case Fill(_, _) => false
    case _ => true
  }

  /** Whether the walk meets b depends on the sizes in front of b only. */
  lemma {:induction false} WalkMeets(a: seq<Line>, c: seq<Line>, p: nat, b: nat)
    requires |a| == |c| && b < |a| && forall u :: 0 <= u < b ==> a[u].size == c[u].size
    ensures b in Walk(a, p) <==> b in Walk(c, p)
    decreases b - p
  {
    if p < b && a[p].size > 0 { WalkMeets(a, c, p + a[p].size, b); }
  }

  lemma SparedStep(g: Heap, a: Act, b: nat)
    requires Lost(g, b) && Spares(a, b)
    ensures Lost(Run1(g, a), b) && Run1(g, a).log == g.log
  {
    hide Walk;
    WalkMeets(g.mem, Run1(g, a).mem, 0, b);
  }

  lemma {:induction false} SparedRun(g: Heap, acts: seq<Act>, b: nat)
    requires Lost(g, b) && forall i :: 0 <= i < |acts| ==> Spares(acts[i], b)
    ensures Lost(Run(g, acts), b) && Run(g, acts).log == g.log
    decreases |acts|
  {
    hide Lost, Run1, Spares;
    if acts != [] {
      SparedStep(g, acts[0], b);
      SparedRun(Run1(g, acts[0]), acts[1..], b);
    }
  }

  /** The very first store of the unlinking loses the block. */
  lemma FirstLoses(h: Heap, s: Shape, b: nat)
    requires Sound(h, s, NOBODY) && Walk(h.mem, 0) == s.blocks && b in s.free && b < |h.mem| && h.mem[b].free
    ensures Lost(Run1(h, UnlinkActs(h, b, Class(h.mem[b].size))[0]), b)
    ensures Run1(h, UnlinkActs(h, b, Class(h.mem[b].size))[0]).log == h.log
    ensures forall i :: 0 < i < |UnlinkActs(h, b, Class(h.mem[b].size))| ==>
      Spares(UnlinkActs(h, b, Class(h.mem[b].size))[i], b)
  {
    hide Walk, Class, Tiled, PrevSizes, Bits, Unlink;
    NotOwnNeighbour(h, s, NOBODY, b);
    assert Linked(h.mem, h.matrix, s.free, s.stamp, b);
    var g := Run1(h, UnlinkActs(h, b, Class(h.mem[b].size))[0]);
    WalkMeets(h.mem, g.mem, 0, b);
  }

  lemma SplitSpares(h: Heap, s: Shape, b: nat, size: nat)
    requires Sound(h, s, NOBODY) && b in s.blocks && b !in s.free && b < |h.mem| && h.mem[b].free
    requires 0 < size < h.mem[b].size
    ensures forall i :: 0 <= i < |SplitActs(h, b, size)| ==> Spares(SplitActs(h, b, size)[i], b)
  {
    hide Class, Sound, Carve, HeaderActs, CutActs, InsertActs, Spares;
    SoundFacts(h, s, NOBODY, b);
    var rest, left := b + size, h.mem[b].size - size;
    HeaderSpares(rest, left, b);
    CutSpares(h, b, size);
    SameHeads(h, b, size);
    InsertSpares(h, Carve(h, b, size), s, rest, Class(left), b);
  }

  lemma HeaderSpares(u: nat, size: nat, b: nat)
    requires b < u
    ensures forall i :: 0 <= i < |HeaderActs(u, size)| ==> Spares(HeaderActs(u, size)[i], b)
  {
  }

  lemma CutSpares(h: Heap, b: nat, size: nat)
    requires b < |h.mem| < MAX_UNITS && h.mem[b].free && b + h.mem[b].size <= |h.mem| && 0 < size < h.mem[b].size
    ensures forall i :: 0 <= i < |CutActs(h, b, size)| ==> Spares(CutActs(h, b, size)[i], b)
  {
  }

  lemma SameHeads(h: Heap, b: nat, size: nat)
    ensures Carve(h, b, size).matrix == h.matrix
  {
  }

  lemma InsertSpares(h: Heap, c: Heap, s: Shape, u: nat, k: nat, b: nat)
    requires Sound(h, s, NOBODY) && b !in s.free && c.matrix == h.matrix && k < CLASSES && u != b
    ensures forall i :: 0 <= i < |InsertActs(c, u, k)| ==> Spares(InsertActs(c, u, k)[i], b)
  {
    hide Sound, Class;
    if h.matrix[k].At? { HeadIsFree(h, s, NOBODY, k); }
  }

  /** A crash after some but not all stores of tlsf_malloc in front of mark_block_allocated. */
  lemma LostBeforeMark(h: Heap, s: Shape, b: nat, total: nat, i: nat)
    requires Wf(h, s) && Walk(h.mem, 0) == s.blocks && b in s.free && b < |h.mem|
    requires MIN_BLOCK <= total <= h.mem[b].size && 0 < i <= |TakeActs(h, b, total)|
    ensures Lost(Run(h, TakeActs(h, b, total)[..i]), b) && Run(h, TakeActs(h, b, total)[..i]).log == []
  {
    hide Lost, Run, Run1, Class, Sound, RemoveFree, SplitActs, UnlinkActs, Walk, Wf, Spares;
    LogIsEmpty(h, s);
    WfCore(h, s);
    CoreSound(h, s);
    FreeIsBlock(h, s, NOBODY, b);
    SoundFacts(h, s, NOBODY, b);
    FreeFlags(h, s);
    var k := Class(h.mem[b].size);
    var h1 := RemoveFree(h, b, k);
    RemoveSound(h, s, NOBODY, b);
    LinksFacts(h.mem, h1.mem, s.free - {b}, b);
    FirstLoses(h, s, b);
    if h.mem[b].size - total >= MIN_BLOCK { SplitSpares(h1, s.(free := s.free - {b}), b, total); }
    var acts := TakeActs(h, b, total);
    UnlinkSome(h, b, k);
    assert acts[..i] == [acts[0]] + acts[1..i];
    RunOne(h, acts[0], acts[1..i]);
    SparedRun(Run1(h, acts[0]), acts[1..i], b);
  }

  lemma UnlinkSome(h: Heap, b: nat, k: nat)
    requires k < CLASSES
    ensures UnlinkActs(h, b, k) != []
  {
  }

  // ---------------------------------------------------------------- from mark_block_allocated on

  /** The heap up to the owner words. */
  function NoUids(h: Heap): Heap {
    h.(mem := seq(|h.mem|, u requires 0 <= u < |h.mem| => h.mem[u].(uid := NO_OWNERS)))
  }

  lemma LooseWrite(h: Heap, g: Heap, a: Addr, w: Word)
    requires NoUids(h) == NoUids(g)
    ensures NoUids(Write(h, a, w)) == NoUids(Write(g, a, w))
    ensures a.UidAt? ==> NoUids(Write(h, a, w)) == NoUids(h)
  {
    assert |h.mem| == |NoUids(h).mem| == |NoUids(g).mem| == |g.mem|;
    forall u | 0 <= u < |h.mem| ensures h.mem[u].(uid := NO_OWNERS) == g.mem[u].(uid := NO_OWNERS) {
      assert NoUids(h).mem[u] == NoUids(g).mem[u];
    }
  }

  lemma {:induction false} LooseUndo(h: Heap, g: Heap, n: nat)
    requires NoUids(h) == NoUids(g) && n <= |h.log|
    ensures n <= |g.log| && NoUids(Undo(h, n)) == NoUids(Undo(g, n))
    decreases n
  {
    hide Write;
    assert h.log == NoUids(h).log == NoUids(g).log == g.log;
    assert |h.mem| == |NoUids(h).mem| == |NoUids(g).mem| == |g.mem|;
    if n > 0 && InPool(h, h.log[n - 1].addr) {
      LooseWrite(h, g, h.log[n - 1].addr, h.log[n - 1].was);
      LooseUndo(Write(h, h.log[n - 1].addr, h.log[n - 1].was), Write(g, h.log[n - 1].addr, h.log[n - 1].was), n - 1);
    }
  }

  lemma LooseOrigin(h: Heap, g: Heap)
    requires NoUids(h) == NoUids(g)
    ensures NoUids(Origin(h)) == NoUids(Origin(g))
  {
    hide Undo;
    assert h.log == NoUids(h).log == NoUids(g).log == g.log;
    LooseUndo(h, g, |h.log|);
    NoUidsLog(Undo(h, |h.log|), Undo(g, |g.log|));
  }

  lemma NoUidsLog(h: Heap, g: Heap)
    requires NoUids(h) == NoUids(g)
    ensures NoUids(h.(log := [])) == NoUids(g.(log := []))
  {
    assert NoUids(h.(log := [])) == NoUids(h).(log := []);
    assert NoUids(g.(log := [])) == NoUids(g).(log := []);
  }

  /** Undoing gives back everything that was there, up to the owner words. */
  lemma {:induction false} LooseKeepsOrigin(h: Heap, steps: seq<Step>)
    requires TypedLog(h) && UidLoose(h, steps)
    ensures NoUids(Origin(Exec(h, steps))) == NoUids(Origin(h)) && TypedLog(Exec(h, steps))
    decreases |steps|
  {
    hide Write, Read, Undo, Origin, Recover, NoUids;
    if steps != [] {
      match steps[0] {
        case Records(a) =>
          RecordKeepsOrigin(h, a);
        case Stores(a, w) =>
          if InLog(h.log, a) {
            assert h.log[..|h.log|] == h.log;
            UndoAbsorbs(h, |h.log|, a, w);
            OriginBy(h, Write(h, a, w));
          } else {
            LooseWrite(h, h, a, w);
            LooseOrigin(h, Write(h, a, w));
          }
        case Undoes(k) =>
          UndoTopKeepsOrigin(h, Min(k, |h.log|));
      }
      LooseKeepsOrigin(Exec1(h, steps[0]), steps[1..]);
    }
  }

  lemma LooseRecovers(h: Heap, steps: seq<Step>)
    requires h.log == [] && UidLoose(h, steps) && |steps| < BUL_ENTRIES
    ensures NoUids(Recover(Exec(h, steps))) == NoUids(h)
  {
    LooseKeepsOrigin(h, steps);
    hide Undo, Exec, UidLoose, NoUids;
    FewRecords(h, steps);
    NoRecords(h);
    if Exec(h, steps).log == [] { NoRecords(Exec(h, steps)); }
  }

  /** Maps with the same blocks and sizes have the same total. */
  lemma {:induction false} TotalBySize(m: map<nat, Entry>, n: map<nat, Entry>)
    requires m.Keys == n.Keys && forall b :: b in m ==> m[b].size == n[b].size
    ensures Total(m) == Total(n)
    decreases |m|
  {
    if m == map[] {
      assert n == map[];
    } else {
      var b :| b in m && Total(m) == 64 * (m[b].size - 1) + Total(m - {b});
      TotalRemove(n, b);
      TotalBySize(m - {b}, n - {b});
    }
  }

  ghost predicate SameOutline(a: seq<Line>, c: seq<Line>) {
    |a| == |c| && forall u :: 0 <= u < |a| ==> a[u].size == c[u].size && a[u].free == c[u].free
  }

  lemma {:induction false} SameWalk(a: seq<Line>, c: seq<Line>, p: nat)
    requires SameOutline(a, c)
    ensures Walk(a, p) == Walk(c, p)
    decreases |a| - p
  {
    if p < |a| && a[p].size > 0 { SameWalk(a, c, p + a[p].size); }
  }

  lemma SameTotal(a: seq<Line>, c: seq<Line>, blocks: set<nat>)
    requires SameOutline(a, c) && InRange(a, blocks)
    ensures Total(Live(a, blocks)) == Total(Live(c, blocks))
  {
    TotalBySize(Live(a, blocks), Live(c, blocks));
  }

  lemma OutlineOf(r: Heap, c: Heap)
    requires NoUids(r) == NoUids(c)
    ensures SameOutline(r.mem, c.mem) && r.used == c.used
  {
    assert |r.mem| == |NoUids(r).mem| == |NoUids(c).mem| == |c.mem|;
    forall u | 0 <= u < |r.mem| ensures r.mem[u].size == c.mem[u].size && r.mem[u].free == c.mem[u].free {
      assert NoUids(r).mem[u] == NoUids(c).mem[u];
    }
  }

  lemma ClaimOutline(c: Heap, b: nat, split: bool, uid: nat, dtype: nat)
    requires c.log == [] && b < |c.mem| < MAX_UNITS && 0 < c.mem[b].size && b + c.mem[b].size <= |c.mem|
    ensures var r := Claim(c, b, split, uid, dtype).h;
            SameOutline(r.mem, c.mem) && r.used == c.used + 64 * (c.mem[b].size - 1)
  {
    hide Claim;
    ClaimWrites(c, b, split, uid, dtype);
  }

  /** The carved block is live, but used_bytes does not count it. */
  lemma UncountedIsBad(h: Heap, s: Shape, b: nat, total: nat, uid: nat, r: Heap)
    requires Wf(h, s) && b in s.free && b < |h.mem| && MIN_BLOCK <= total <= h.mem[b].size && uid != 0
    requires NoUids(r) == NoUids(Carved(h, b, total))
    ensures !Good(r)
  {
    hide Wf, Carved, Sound, NoUids, Walk, AfterMalloc, Live, Claim, RulesKept, PayloadKept, SameOutline, Good,
      CarvedFacts,
      Local, Total;
    WfCore(h, s);
    CoreSound(h, s);
    var c, t := Carved(h, b, total), AfterMalloc(s, b, h.mem[b].size, total);
    CarvedFrees(h, s, b, total);
    SoundFacts(c, t, NOBODY, b);
    SoundTiled(c, t);
    MallocWf(h, s, b, total, uid, 0);
    ClaimOutline(c, b, SubUnits(h.mem[b].size, total) >= MIN_BLOCK, uid, 0);
    var g := Claimed(h, b, total, uid, 0).h;
    OutlineOf(r, c);
    if Good(r) {
      UsedIsTotal(r);
      SameWalk(r.mem, c.mem, 0);
      TotalsDiffer(h, g, r, c, t, c.mem[b].size);
    }
  }

  lemma CarvedFrees(h: Heap, s: Shape, b: nat, total: nat)
    requires Wf(h, s) && b in s.free && b < |h.mem| && MIN_BLOCK <= total <= h.mem[b].size
    ensures var c, t := Carved(h, b, total), AfterMalloc(s, b, h.mem[b].size, total);
            Sound(c, t, NOBODY) && b in t.blocks && c.used == h.used && c.log == []
  {
    hide Sound, Carved, CarvedFacts, Local;
    WfCore(h, s);
    CoreSound(h, s);
    FreeIsBlock(h, s, NOBODY, b);
    CarvedSound(h, s, b, total);
    LogIsEmpty(h, s);
  }

  lemma LogIsEmpty(h: Heap, s: Shape)
    requires Wf(h, s)
    ensures h.log == []
  {
  }

  lemma TotalsDiffer(h: Heap, g: Heap, r: Heap, c: Heap, t: Shape, size: nat)
    requires Core(g, t) && InRange(g.mem, t.blocks) && Walk(r.mem, 0) == t.blocks
    requires SameOutline(g.mem, c.mem) && SameOutline(r.mem, c.mem)
    requires g.used == h.used + 64 * (size - 1) && r.used == h.used && r.used == Total(View(r))
    ensures size == 1
  {
    hide Sound, Clients, Live, Total, Walk;
    SameTotal(g.mem, r.mem, t.blocks);
  }

  // ---------------------------------------------------------------- every crash point

  /** The stores of a tlsf_malloc that finds a block. */
  function StoresOf(h: Heap, size: nat, uid: nat, dtype: nat): seq<Act>
    requires FindFor(h, BlockUnits(size)).At?
  {
    MallocActs(h, FindFor(h, BlockUnits(size)).u, BlockUnits(size), uid, dtype)
  }

  lemma CrashPoint(h: Heap, s: Shape, b: nat, total: nat, uid: nat, dtype: nat, i: nat)
    requires Wf(h, s) && Walk(h.mem, 0) == s.blocks && b in s.free && b < |h.mem|
    requires MIN_BLOCK <= total <= h.mem[b].size && uid != 0
    requires 0 < i <= |MallocActs(h, b, total, uid, dtype)|
    ensures !Good(Recover(Run(h, MallocActs(h, b, total, uid, dtype)[..i])))
  {
    hide Wf, Lost, Run, Carved, TakeActs, ClaimSteps, Walk, MarkAct, Sound, Undo, Good, NoUids, AfterMalloc, Exec,
      UidLoose;
    var acts, take := MallocActs(h, b, total, uid, dtype), TakeActs(h, b, total);
    if i <= |take| {
      assert acts[..i] == take[..i];
      LostBeforeMark(h, s, b, total, i);
      LostRecovers(Run(h, take[..i]), b);
    } else {
      var g, c := Run(h, take), Carved(h, b, total);
      var mark := MarkAct(g, b);
      var split := SubUnits(h.mem[b].size, total) >= MIN_BLOCK;
      var steps := ClaimSteps(c, b, split, uid, dtype);
      var j := i - |take| - 1;
      assert acts[..i] == take + ([mark] + Acts(steps[..j]));
      RunAppend(h, take, [mark] + Acts(steps[..j]));
      RunOne(g, mark, Acts(steps[..j]));
      WfCore(h, s);
      CoreSound(h, s);
      TakeRuns(h, s, b, total);
      RunExec(c, steps[..j]);
      CarvedFrees(h, s, b, total);
      SoundFacts(c, AfterMalloc(s, b, h.mem[b].size, total), NOBODY, b);
      ClaimExec(c, b, split, uid, dtype);
      LoosePrefix(c, steps, j);
      FewSteps(c, b, split, uid, dtype);
      LooseRecovers(c, steps[..j]);
      UncountedIsBad(h, s, b, total, uid, Recover(Exec(c, steps[..j])));
    }
  }

  lemma LostRecovers(g: Heap, b: nat)
    requires Lost(g, b) && g.log == []
    ensures !Good(Recover(g))
  {
    hide Good, Walk, Undo;
    LostIsBad(g, b);
  }

  lemma FewSteps(c: Heap, b: nat, split: bool, uid: nat, dtype: nat)
    ensures |ClaimSteps(c, b, split, uid, dtype)| <= 13
  {
  }

  /** The stores are tlsf_malloc_internal on the block found. */
  lemma MallocRuns(h: Heap, s: Shape, b: nat, total: nat, uid: nat, dtype: nat)
    requires Wf(h, s) && b in s.free && b < |h.mem| && MIN_BLOCK <= total <= h.mem[b].size
    ensures Run(h, MallocActs(h, b, total, uid, dtype)) == Claimed(h, b, total, uid, dtype).h
  {
    hide Wf, Run, Carved, TakeActs, ClaimSteps, MarkAct, Sound, AfterMalloc, Exec, UidLoose, Claim;
    WfCore(h, s);
    CoreSound(h, s);
    var take, c := TakeActs(h, b, total), Carved(h, b, total);
    var g := Run(h, take);
    var split := SubUnits(h.mem[b].size, total) >= MIN_BLOCK;
    var steps := ClaimSteps(c, b, split, uid, dtype);
    RunAppend(h, take + [MarkAct(g, b)], Acts(steps));
    RunAppend(h, take, [MarkAct(g, b)]);
    RunOne(g, MarkAct(g, b), []);
    TakeRuns(h, s, b, total);
    RunExec(c, steps);
    CarvedFrees(h, s, b, total);
    SoundFacts(c, AfterMalloc(s, b, h.mem[b].size, total), NOBODY, b);
    ClaimExec(c, b, split, uid, dtype);
  }

  /** All stores and then the commit are tlsf_malloc. */
  lemma StoresAreMalloc(h: Heap, s: Shape, size: nat, uid: nat, dtype: nat)
    requires Wf(h, s) && uid != 0 && size > 0 && Fits(h, size) && FindFor(h, BlockUnits(size)).At?
    ensures Commit(Run(h, StoresOf(h, size, uid, dtype))) == Malloc(h, size, uid, dtype).h
    ensures Malloc(h, size, uid, dtype).ptr.At?
  {
    hide Wf, Run, MallocActs, Claimed, Sound, AfterMalloc, FindFor, BlockUnits, MallocInternal, Local, MallocFacts;
    var total := BlockUnits(size);
    UnitsPositive(size);
    WfCore(h, s);
    CoreSound(h, s);
    FoundIsFree(h, s, total);
    MallocRuns(h, s, FindFor(h, total).u, total, uid, dtype);
    LogIsEmpty(h, s);
    ClaimedSound(h, s, FindFor(h, total).u, total, uid, dtype);
    MallocPaths(h, s, size, uid, dtype);
  }

  /**
   * When the process dies anywhere in a successful tlsf_malloc, recovery gives back a good heap exactly when no
   * store was made yet; after the commit nothing is left to recover.
   */
  lemma CrashedMalloc(h: Heap, size: nat, uid: nat, dtype: nat, i: nat)
    requires Good(h) && uid != 0 && size > 0 && Fits(h, size) && FindFor(h, BlockUnits(size)).At?
    requires i <= |StoresOf(h, size, uid, dtype)|
    ensures Good(Recover(Run(h, StoresOf(h, size, uid, dtype)[..i]))) <==> i == 0
    ensures var r := Malloc(h, size, uid, dtype).h;
            Commit(Run(h, StoresOf(h, size, uid, dtype))) == r && Recover(r) == r && Good(r)
  {
    hide Wf, Run, MallocActs, Walk, Undo, FindFor, BlockUnits, Malloc, Allowed, Carries, ExactlyBreaks, Good;
    var s := ShapeOf(h);
    UnitsPositive(size);
    StoresAreMalloc(h, s, size, uid, dtype);
    StepCorrect(h, DoMalloc(size, uid, dtype));
    NothingLogged(h);
    NothingLogged(Malloc(h, size, uid, dtype).h);
    if i == 0 {
      RunNothing(h);
      assert StoresOf(h, size, uid, dtype)[..0] == [];
    } else {
      WfCore(h, s);
      FoundIsFree(h, s, BlockUnits(size));
      CrashPoint(h, s, FindFor(h, BlockUnits(size)).u, BlockUnits(size), uid, dtype, i);
    }
  }

  lemma NothingLogged(h: Heap)
    requires Good(h)
    ensures Recover(h) == h
  {
    hide Sound, Clients;
    UsedIsTotal(h);
  }

  lemma ApplyIs(h: Heap, b: nat, size: nat, uid: nat)
    requires size > 0
    ensures Apply(h, DoRealloc(b, size, uid)).h == Realloc(h, b, size, uid).h
  {
    hide Realloc, Free;
  }

  lemma StepGood(h: Heap, op: Op)
    requires Good(h) && Legal(h, op)
    ensures Good(Apply(h, op).h)
  {
    hide Good, Legal, Apply, Allowed, Carries, ExactlyBreaks, OutOfRoom;
    StepCorrect(h, op);
  }
}
