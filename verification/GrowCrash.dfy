/** A process that dies at any store of a tlsf_realloc that grows the block in place. */
module GrowCrash {
  import opened Mapping
  import opened Heap
  import opened Invariant
  import opened MallocProof
  import opened FreeProof
  import opened ReallocProof
  import opened Search
  import opened Outcomes
  import opened Refinement
  import opened Blocks
  import opened Runs
  import opened UndoLog
  import opened MallocSteps
  import opened MallocCrash
  import opened CrashFacts
  import opened FreeCrash

  /** The neighbour's PREV_FREE flag, when the whole neighbour is absorbed. */
  function WholeSteps(h: Heap, b: nat): seq<Step> {
    var after := NextOf(h, b);
    if after >= |h.mem| then [] else
      [Records(FlagsAt(after)), Records(PrevSizeAt(after)),
       Stores(FlagsAt(after), Flags(Get(h, after).size, Get(h, after).free, false))]
  }

  /** The recorded header and used_bytes, and the new size. */
  function AbsorbSteps(h: Heap, b: nat): seq<Step> {
    var l := Get(h, b);
    [Records(FlagsAt(b)), Records(UsedAt)]
    + [Stores(FlagsAt(b), Flags(AddUnits(l.size, Get(h, NextOf(h, b)).size), l.free, l.prevFree))]
  }

  /** The growing branch of realloc_try_inplace. */
  function GrowActs(h: Heap, b: nat, needed: nat): seq<Act> {
    var next := NextOf(h, b);
    var k := Class(Get(h, next).size);
    var g := Absorbed(h, b).h;
    UnlinkActs(h, next, k)
    + (Acts(AbsorbSteps(h, b)) + TailActs(g, b, needed)
       + [Do(Stores(UsedAt, Number(h.used + 64 * (GrownSize(g, b, needed) - Get(h, b).size))))])
  }

  function GrownSize(g: Heap, b: nat, needed: nat): nat {
    if SubUnits(Get(g, b).size, needed) >= MIN_BLOCK then needed else Get(g, b).size
  }

  function TailActs(g: Heap, b: nat, needed: nat): seq<Act> {
    if SubUnits(Get(g, b).size, needed) >= MIN_BLOCK then SplitActs(g, b, needed) else Acts(WholeSteps(g, b))
  }

  // ---------------------------------------------------------------- the stores are the operation

  /** A block and the free one behind it that is absorbed. */
  ghost predicate Beside(h: Heap, s: Shape, b: nat, x: nat, needed: nat) {
    && Sound(h, s, NOBODY) && Walk(h.mem, 0) == s.blocks && h.log == []
    && b < x < |h.mem| < MAX_UNITS && x == b + h.mem[b].size && x in s.free && h.mem[x].free && x in s.blocks
    && MIN_BLOCK <= h.mem[b].size < needed <= h.mem[b].size + h.mem[x].size
    && x + h.mem[x].size <= |h.mem| && b in s.blocks && b !in s.free
  }

  lemma GrowBeside(h: Heap, s: Shape, b: nat, needed: nat)
    requires Wf(h, s) && Walk(h.mem, 0) == s.blocks && b in s.blocks && b < |h.mem| && !h.mem[b].free
    requires h.mem[b].size < needed && FitsInPlace(h, b, needed)
    ensures Beside(h, s, b, b + h.mem[b].size, needed)
  {
    hide Sound, Core, Walk;
    WfCore(h, s);
    CoreSound(h, s);
    LogIsEmpty(h, s);
    SoundFacts(h, s, NOBODY, b);
    EdgeIsBlock(h, s, NOBODY, b);
    ListedIsFree(h, s, b);
    var x := b + h.mem[b].size;
    SoundFacts(h, s, NOBODY, x);
    ListedIsFree(h, s, x);
  }

  /** The heap after the neighbour left its list. */
  lemma Unlinked(h: Heap, s: Shape, b: nat, x: nat, needed: nat)
    requires Beside(h, s, b, x, needed)
    ensures var g := RemoveFree(h, x, Class(h.mem[x].size));
            && |g.mem| == |h.mem| && g.mem[b] == h.mem[b] && g.log == [] && g.used == h.used
            && Sound(g, s.(free := s.free - {x}), NOBODY) && h.mem[x].prev != At(x)
            && (forall u :: 0 <= u < |h.mem| ==>
                  g.mem[u] == h.mem[u].(prev := g.mem[u].prev, next := g.mem[u].next))
  {
    hide Sound, RemoveFree, Class, Walk;
    NotOwnNeighbour(h, s, NOBODY, x);
    RemoveSound(h, s, NOBODY, x);
    var g := RemoveFree(h, x, Class(h.mem[x].size));
    LinksFacts(h.mem, g.mem, s.free - {x}, b);
  }

  /** r is g with b enlarged by the units of x, and two words recorded. */
  ghost predicate Absorbs(h: Heap, g: Heap, r: Heap, b: nat, x: nat) {
    && b < |h.mem| && x < |h.mem| && |g.mem| == |h.mem| && |r.mem| == |h.mem| && |r.log| == 2
    && r == g.(mem := r.mem, log := r.log)
    && r.mem == g.mem[b := h.mem[b].(size := h.mem[b].size + h.mem[x].size)]
  }

  lemma AbsorbRuns(h: Heap, s: Shape, b: nat, x: nat, needed: nat)
    requires Beside(h, s, b, x, needed)
    ensures Absorbed(h, b).Go?
    ensures Exec(RemoveFree(h, x, Class(h.mem[x].size)), AbsorbSteps(h, b)) == Absorbed(h, b).h
    ensures Absorbs(h, RemoveFree(h, x, Class(h.mem[x].size)), Absorbed(h, b).h, b, x)
  {
    hide Sound, RemoveFree, Class, Walk, Read, Recover;
    Unlinked(h, s, b, x, needed);
    var g := RemoveFree(h, x, Class(h.mem[x].size));
    var steps := AbsorbSteps(h, b);
    var g1 := Push(g, FlagsAt(b)).h;
    var g2 := Push(g1, UsedAt).h;
    assert steps == [steps[0]] + [steps[1], steps[2]] && [steps[1], steps[2]] == [steps[1]] + [steps[2]];
    assert steps[1..] == [steps[1], steps[2]] && steps[1..][1..] == [steps[2]] && [steps[2]][1..] == [];
    assert Exec(g, steps) == Exec(g1, steps[1..]);
    assert Exec(g1, steps[1..]) == Exec(g2, [steps[2]]);
    assert Exec(g2, [steps[2]]) == Exec(Exec1(g2, steps[2]), []);
  }

  lemma WholeRuns(g: Heap, b: nat)
    requires b < |g.mem| && |g.log| == 2
    ensures Exec(g, WholeSteps(g, b)) == ExpandWhole(g, b).h && ExpandWhole(g, b).Go?
    ensures ExpandWhole(g, b).h.used == g.used
  {
    hide Read, Recover;
    var after := NextOf(g, b);
    if after < |g.mem| {
      var steps := WholeSteps(g, b);
      var g1 := Push(g, FlagsAt(after)).h;
      var g2 := Push(g1, PrevSizeAt(after)).h;
      assert steps[1..] == [steps[1], steps[2]] && steps[1..][1..] == [steps[2]] && [steps[2]][1..] == [];
      assert Exec(g, steps) == Exec(g1, steps[1..]);
      assert Exec(g1, steps[1..]) == Exec(g2, [steps[2]]);
      assert Exec(g2, [steps[2]]) == Exec(Exec1(g2, steps[2]), []);
    }
  }

  lemma InsertKeepsHeads(h: Heap, x: nat, k: nat, u: nat)
    requires k < CLASSES && u < |h.mem|
    ensures var r := InsertFree(h, x, k);
            |r.mem| == |h.mem| && r.used == h.used && r.mem[u].size == h.mem[u].size
  {
  }

  lemma CarveHead(h: Heap, b: nat, size: nat)
    requires b < |h.mem| < MAX_UNITS && 0 < size < h.mem[b].size && b + h.mem[b].size <= |h.mem|
    ensures var c := Carve(h, b, size); |c.mem| == |h.mem| && c.used == h.used && c.mem[b].size == size
  {
  }

  lemma SplitHead(h: Heap, b: nat, size: nat)
    requires b < |h.mem| < MAX_UNITS && 0 < size < h.mem[b].size && b + h.mem[b].size <= |h.mem|
    ensures var r := Split(h, b, size); |r.mem| == |h.mem| && r.used == h.used && r.mem[b].size == size
  {
    hide Carve, InsertFree, Class;
    CarveHead(h, b, size);
    var c := Carve(h, b, size);
    InsertKeepsHeads(c, AddUnits(b, size), Class(Get(c, AddUnits(b, size)).size), b);
  }

  lemma WholeHead(g: Heap, b: nat)
    requires b < |g.mem| && |g.log| == 2 && NextOf(g, b) != b
    ensures var r := ExpandWhole(g, b).h; |r.mem| == |g.mem| && r.mem[b].size == g.mem[b].size
  {
    hide Read, Recover;
  }

  /** The cut or the whole neighbour, and what Expand makes of it. */
  lemma TailRuns(g: Heap, b: nat, needed: nat)
    requires b < |g.mem| < MAX_UNITS && 0 < needed <= g.mem[b].size && b + g.mem[b].size <= |g.mem| && |g.log| == 2
    ensures var r := Run(g, TailActs(g, b, needed));
            && b < |r.mem| && r.mem[b].size == GrownSize(g, b, needed) && r.used == g.used
            && Go(r) ==
                 if SubUnits(g.mem[b].size, needed) >= MIN_BLOCK then Go(Split(g, b, needed)) else ExpandWhole(g, b)
  {
    hide Run, Split, SplitActs, ExpandWhole, WholeSteps, Exec;
    if SubUnits(g.mem[b].size, needed) >= MIN_BLOCK {
      SplitRuns(g, b, needed);
      SplitHead(g, b, needed);
    } else {
      WholeRuns(g, b);
      WholeHead(g, b);
      RunExec(g, WholeSteps(g, b));
    }
  }

  lemma GrowRuns(h: Heap, s: Shape, b: nat, x: nat, needed: nat)
    requires Beside(h, s, b, x, needed)
    ensures Expand(h, b, needed) == Go(Run(h, GrowActs(h, b, needed)))
  {
    hide Sound, RemoveFree, Class, Walk, Run, Exec, AbsorbSteps, TailActs, Absorbed, UnlinkActs, Split, ExpandWhole;
    Unlinked(h, s, b, x, needed);
    AbsorbRuns(h, s, b, x, needed);
    var k := Class(h.mem[x].size);
    var g0, g := RemoveFree(h, x, k), Absorbed(h, b).h;
    UnlinkRuns(h, x, k);
    RunExec(g0, AbsorbSteps(h, b));
    TailRuns(g, b, needed);
    var r := Run(g, TailActs(g, b, needed));
    var last := Do(Stores(UsedAt, Number(h.used + 64 * (GrownSize(g, b, needed) - h.mem[b].size))));
    RunAppend(h, UnlinkActs(h, x, k), Acts(AbsorbSteps(h, b)) + TailActs(g, b, needed) + [last]);
    RunAppend(g0, Acts(AbsorbSteps(h, b)) + TailActs(g, b, needed), [last]);
    RunAppend(g0, Acts(AbsorbSteps(h, b)), TailActs(g, b, needed));
    RunOne(r, last, []);
  }

  // ---------------------------------------------------------------- store by store

  /**
   * Recovery will give b its old size back, so that the walk meets x again, which is marked free but is not on any
   * list.
   */
  ghost predicate Gone(g: Heap, h: Heap, b: nat, x: nat) {
    |g.mem| == |h.mem| && b < x < |g.mem| && Unlisted(g, x) && OldHeaders(g, h, b, x) && OldRecords(g, h, b, x)
  }

  ghost predicate Unlisted(g: Heap, x: nat)
    requires x < |g.mem|
  {
    && (forall k :: 0 <= k < CLASSES ==> g.matrix[k] != At(x))
    && (g.mem[x].prev.At? && g.mem[x].prev.u < |g.mem| ==> g.mem[g.mem[x].prev.u].next != At(x))
  }

  ghost predicate OldHeaders(g: Heap, h: Heap, b: nat, x: nat)
    requires |g.mem| == |h.mem| && x < |g.mem|
  {
    forall u :: 0 <= u <= x && (u != b || !InLog(g.log, FlagsAt(b))) ==>
      g.mem[u].size == h.mem[u].size && g.mem[u].free == h.mem[u].free
  }

  ghost predicate OldRecords(g: Heap, h: Heap, b: nat, x: nat)
    requires b < |h.mem|
  {
    && LogInPool(g) && |g.log| <= 10
    && forall i :: 0 <= i < |g.log| && g.log[i].addr.FlagsAt? ==> Recorded(g.log[i], h, b, x)
  }

  /** A record of b's old header, or of one behind x. */
  ghost predicate Recorded(rec: Rec, h: Heap, b: nat, x: nat)
    requires b < |h.mem| && rec.addr.FlagsAt?
  {
    || rec.addr.u > x
    || (rec.addr.u == b && rec.was.Flags? && rec.was.size == h.mem[b].size && rec.was.free == h.mem[b].free)
  }

  lemma GoneIsBad(g: Heap, h: Heap, b: nat, x: nat)
    requires Gone(g, h, b, x) && x in Walk(h.mem, 0) && h.mem[x].free
    ensures !Good(Recover(g))
  {
    hide Walk, Good, Undo;
    var r := Recover(g);
    UndoLinks(g, |g.log|);
    assert g.log[..|g.log|] == g.log;
    forall u | 0 <= u <= x ensures r.mem[u].size == h.mem[u].size && r.mem[u].free == h.mem[u].free {
      UndoFlags(g, |g.log|, u, h.mem[u].size, h.mem[u].free);
    }
    WalkMeets(h.mem, r.mem, 0, x);
    LostIsBad(r, x);
  }

  /** A store that neither lists x nor changes a header up to x, except b's. */
  predicate Mild(a: Act, b: nat, x: nat, units: nat) {
    match a
    case Do(Records(UsedAt)) => true
    case Do(Records(FlagsAt(u))) => x < u < units
    case Do(Records(y)) => y.u < units
    case Do(Stores(FlagsAt(u), _)) => u == b || u > x
    case Do(Stores(_, _)) => true
    case Do(Undoes(_)) => false
    case NextTo(_, p) => p != At(x)
    case PrevTo(u, _) => u != x
    case HeadTo(_, p) => p != At(x)
    case Fill(_, _) => false
    case _ => true
  }

  ghost predicate AllMild(acts: seq<Act>, b: nat, x: nat, units: nat) {
    forall i :: 0 <= i < |acts| ==> Mild(acts[i], b, x, units)
  }

  /** How many records the stores make. */
  function Recs(acts: seq<Act>): nat {
    if acts == [] then 0 else (if acts[0].Do? && acts[0].s.Records? then 1 else 0) + Recs(acts[1..])
  }

  lemma MildLinks(g: Heap, a: Act, b: nat, x: nat)
    requires x < |g.mem| && Unlisted(g, x) && Mild(a, b, x, |g.mem|) && |g.log| < BUL_ENTRIES
    ensures |Run1(g, a).mem| == |g.mem| && Unlisted(Run1(g, a), x)
  {
    hide Recover, Read;
  }

  lemma MildHeaders(g: Heap, a: Act, b: nat, x: nat)
    requires b < x < |g.mem| && Mild(a, b, x, |g.mem|) && |g.log| < BUL_ENTRIES
    ensures |Run1(g, a).mem| == |g.mem|
    ensures forall u :: 0 <= u <= x && u != b ==>
      Run1(g, a).mem[u].size == g.mem[u].size && Run1(g, a).mem[u].free == g.mem[u].free
  {
    hide Recover, Read;
  }

  lemma MildLog(g: Heap, a: Act, h: Heap, b: nat, x: nat)
    requires b < |h.mem| && OldRecords(g, h, b, x) && InLog(g.log, FlagsAt(b)) && Mild(a, b, x, |g.mem|)
    requires |g.log| + Recs([a]) <= 10
    ensures var r := Run1(g, a);
            && OldRecords(r, h, b, x) && InLog(r.log, FlagsAt(b)) && |r.log| == |g.log| + Recs([a])
  {
    hide Recover, Read;
    assert [a][1..] == [];
    var i :| 0 <= i < |g.log| && g.log[i].addr == FlagsAt(b);
    assert Run1(g, a).log[i].addr == FlagsAt(b);
  }

  lemma MildStep(g: Heap, a: Act, h: Heap, b: nat, x: nat)
    requires Gone(g, h, b, x) && InLog(g.log, FlagsAt(b)) && Mild(a, b, x, |g.mem|)
    requires |g.log| + Recs([a]) <= 10
    ensures Gone(Run1(g, a), h, b, x) && InLog(Run1(g, a).log, FlagsAt(b))
    ensures |Run1(g, a).log| == |g.log| + Recs([a])
  {
    ShortLog(g, h, b, x);
    hide OldRecords, Unlisted, Mild, Run1, Recs, InLog;
    MildLinks(g, a, b, x);
    MildHeaders(g, a, b, x);
    MildLog(g, a, h, b, x);
  }

  lemma ShortLog(g: Heap, h: Heap, b: nat, x: nat)
    requires Gone(g, h, b, x)
    ensures |g.log| <= 10
  {
  }

  lemma {:induction false} MildRun(g: Heap, acts: seq<Act>, h: Heap, b: nat, x: nat)
    requires Gone(g, h, b, x) && InLog(g.log, FlagsAt(b)) && AllMild(acts, b, x, |g.mem|)
    requires |g.log| + Recs(acts) <= 10
    ensures Gone(Run(g, acts), h, b, x) && InLog(Run(g, acts).log, FlagsAt(b))
    ensures |Run(g, acts).log| == |g.log| + Recs(acts)
    decreases |acts|
  {
    hide Gone, Run1, InLog, Mild;
    if acts != [] {
      assert [acts[0]][1..] == [];
      MildStep(g, acts[0], h, b, x);
      SizeKept(g, acts[0]);
      MildRun(Run1(g, acts[0]), acts[1..], h, b, x);
    }
  }

  lemma {:induction false} RecsPrefix(acts: seq<Act>, i: nat)
    requires i <= |acts|
    ensures Recs(acts[..i]) <= Recs(acts)
  {
    if i > 0 {
      RecsPrefix(acts[1..], i - 1);
      assert acts[..i][1..] == acts[1..][..i - 1];
    }
  }

  lemma MildBad(g: Heap, acts: seq<Act>, h: Heap, b: nat, x: nat)
    requires Gone(g, h, b, x) && InLog(g.log, FlagsAt(b)) && AllMild(acts, b, x, |g.mem|)
    requires |g.log| + Recs(acts) <= 10 && x in Walk(h.mem, 0) && h.mem[x].free
    ensures AllBad(g, acts)
  {
    hide Gone, InLog, Mild, Walk, Good, Recover, Run;
    forall i | 0 < i <= |acts| ensures !Good(Recover(Run(g, acts[..i]))) {
      RecsPrefix(acts, i);
      MildRun(g, acts[..i], h, b, x);
      GoneIsBad(Run(g, acts[..i]), h, b, x);
    }
  }

  lemma {:induction false} RecsAppend(a: seq<Act>, c: seq<Act>)
    ensures Recs(a + c) == Recs(a) + Recs(c)
  {
    if a == [] {
      assert a + c == c;
    } else {
      assert (a + c)[1..] == a[1..] + c;
      RecsAppend(a[1..], c);
    }
  }

  ghost predicate Silent(acts: seq<Act>) {
    forall i :: 0 <= i < |acts| ==> !(acts[i].Do? && acts[i].s.Records?)
  }

  lemma {:induction false} SilentRecs(acts: seq<Act>)
    requires Silent(acts)
    ensures Recs(acts) == 0
  {
    if acts != [] { SilentRecs(acts[1..]); }
  }

  lemma SplitMild(g: Heap, b: nat, x: nat, needed: nat)
    requires b < x < |g.mem| < MAX_UNITS && Unlisted(g, x) && x < b + needed && 0 < needed < g.mem[b].size
    requires b + g.mem[b].size <= |g.mem|
    ensures AllMild(SplitActs(g, b, needed), b, x, |g.mem|) && Silent(SplitActs(g, b, needed))
  {
    hide Carve, Class;
    SameHeads(g, b, needed);
    var rest, left := b + needed, g.mem[b].size - needed;
    HeaderMild(rest, left, b, x, |g.mem|);
    CutMild(g, b, x, needed);
    InsertMild(Carve(g, b, needed), rest, Class(left), b, x, |g.mem|);
    hide HeaderActs, CutActs, InsertActs, Mild;
  }

  lemma HeaderMild(u: nat, size: nat, b: nat, x: nat, units: nat)
    requires x < u
    ensures AllMild(HeaderActs(u, size), b, x, units) && Silent(HeaderActs(u, size))
  {
  }

  lemma CutMild(g: Heap, b: nat, x: nat, needed: nat)
    requires b < x < |g.mem| < MAX_UNITS && x < b + needed && 0 < needed < g.mem[b].size
    requires b + g.mem[b].size <= |g.mem|
    ensures AllMild(CutActs(g, b, needed), b, x, |g.mem|) && Silent(CutActs(g, b, needed))
  {
  }

  lemma InsertMild(c: Heap, u: nat, k: nat, b: nat, x: nat, units: nat)
    requires k < CLASSES && u != x && forall j :: 0 <= j < CLASSES ==> c.matrix[j] != At(x)
    ensures AllMild(InsertActs(c, u, k), b, x, units) && Silent(InsertActs(c, u, k))
  {
  }

  lemma TailMild(g: Heap, b: nat, x: nat, needed: nat)
    requires b < x < |g.mem| < MAX_UNITS && Unlisted(g, x) && x < b + needed && 0 < needed <= g.mem[b].size
    requires b + g.mem[b].size <= |g.mem|
    ensures AllMild(TailActs(g, b, needed), b, x, |g.mem|) && Recs(TailActs(g, b, needed)) <= 2
  {
    hide SplitActs, Mild, Unlisted;
    if SubUnits(g.mem[b].size, needed) >= MIN_BLOCK {
      SplitMild(g, b, x, needed);
      SilentRecs(SplitActs(g, b, needed));
    } else {
      WholeMild(g, b, x);
    }
  }

  lemma WholeMild(g: Heap, b: nat, x: nat)
    requires b < x < |g.mem| < MAX_UNITS && x < b + g.mem[b].size <= |g.mem|
    ensures AllMild(Acts(WholeSteps(g, b)), b, x, |g.mem|) && Recs(Acts(WholeSteps(g, b))) <= 2
  {
    var acts := Acts(WholeSteps(g, b));
    if acts != [] {
      assert acts == [acts[0]] + [acts[1]] + [acts[2]];
      RecsAppend([acts[0]] + [acts[1]], [acts[2]]);
      RecsAppend([acts[0]], [acts[1]]);
      RecsOne(acts[0]);
      RecsOne(acts[1]);
      RecsOne(acts[2]);
    }
  }

  lemma RecsOne(a: Act)
    ensures Recs([a]) == if a.Do? && a.s.Records? then 1 else 0
  {
    assert [a][1..] == [];
  }

  /** Off its list, x is in no place from which the list could be restored. */
  lemma UnlinkedLost(h: Heap, s: Shape, x: nat)
    requires Sound(h, s, NOBODY) && Walk(h.mem, 0) == s.blocks && x in s.free && x < |h.mem| && h.mem[x].free
    ensures Lost(RemoveFree(h, x, Class(h.mem[x].size)), x)
  {
    hide Sound, Walk, Class, Lost, Run, Run1, UnlinkActs, RemoveFree, Spares;
    var k := Class(h.mem[x].size);
    var acts := UnlinkActs(h, x, k);
    UnlinkSome(h, x, k);
    FirstLoses(h, s, x);
    SparedRun(Run1(h, acts[0]), acts[1..], x);
    RunOne(h, acts[0], acts[1..]);
    assert acts == [acts[0]] + acts[1..];
    NotOwnNeighbour(h, s, NOBODY, x);
    UnlinkRuns(h, x, k);
  }

  /** The first record: from now on recovery gives b its old size. */
  lemma RecordedGone(h: Heap, g: Heap, b: nat, x: nat)
    requires b < x < |h.mem| && |g.mem| == |h.mem| && g.log == [] && Lost(g, x)
    requires forall u :: 0 <= u < |h.mem| ==> g.mem[u].size == h.mem[u].size && g.mem[u].free == h.mem[u].free
    ensures var r := Run1(g, Do(Records(FlagsAt(b))));
            && Gone(r, h, b, x) && InLog(r.log, FlagsAt(b)) && |r.log| == 1 && Unlisted(r, x)
            && r.mem == g.mem && r.matrix == g.matrix
  {
    hide Walk;
    var r := Run1(g, Do(Records(FlagsAt(b))));
    assert r.log[0].addr == FlagsAt(b);
  }

  lemma GrowBad(h: Heap, s: Shape, b: nat, x: nat, needed: nat)
    requires Beside(h, s, b, x, needed)
    ensures AllBad(h, GrowActs(h, b, needed))
  {
    hide Sound, RemoveFree, Class, Walk, Run, Exec, TailActs, Absorbed, UnlinkActs, Lost, Gone, Good, Recover,
      InLog, AllMild, Unlisted, AllBad, Recs;
    Unlinked(h, s, b, x, needed);
    AbsorbRuns(h, s, b, x, needed);
    UnlinkedLost(h, s, x);
    var k := Class(h.mem[x].size);
    var g0, g := RemoveFree(h, x, k), Absorbed(h, b).h;
    NothingRecorded(h);
    UnlinkLoses(h, s, x);
    UnlinkRuns(h, x, k);
    RecordedGone(h, g0, b, x);
    var first := Do(Records(FlagsAt(b)));
    var g1 := Run1(g0, first);
    var tail := TailActs(g, b, needed);
    var last := Do(Stores(UsedAt, Number(h.used + 64 * (GrownSize(g, b, needed) - h.mem[b].size))));
    var rest := Acts(AbsorbSteps(h, b))[1..] + tail + [last];
    SameUnlisted(g1, g, x, b);
    TailMild(g, b, x, needed);
    RestMild(h, b, x, tail, last);
    MildBad(g1, rest, h, b, x);
    GoneIsBad(g1, h, b, x);
    OneBad(g0, first);
    RunOne(g0, first, []);
    BadAppend(g0, [first], rest);
    BadAppend(h, UnlinkActs(h, x, k), [first] + rest);
    assert Acts(AbsorbSteps(h, b)) == [first] + Acts(AbsorbSteps(h, b))[1..];
    assert GrowActs(h, b, needed) == UnlinkActs(h, x, k) + ([first] + rest);
  }

  lemma NothingRecorded(h: Heap)
    requires h.log == []
    ensures exists used :: Ready(h.log, |h.mem|, Miscounts(used))
  {
    assert Ready(h.log, |h.mem|, Miscounts(0));
  }

  lemma SameUnlisted(g: Heap, r: Heap, x: nat, b: nat)
    requires x < |g.mem| == |r.mem| && Unlisted(g, x) && r.matrix == g.matrix && b != x
    requires forall u :: 0 <= u < |g.mem| ==> r.mem[u].next == g.mem[u].next && r.mem[u].prev == g.mem[u].prev
    ensures Unlisted(r, x)
  {
  }

  lemma RestMild(h: Heap, b: nat, x: nat, tail: seq<Act>, last: Act)
    requires b < |h.mem| && AllMild(tail, b, x, |h.mem|) && Recs(tail) <= 2
    requires last.Do? && last.s.Stores? && last.s.a == UsedAt
    ensures var rest := Acts(AbsorbSteps(h, b))[1..] + tail + [last];
            AllMild(rest, b, x, |h.mem|) && Recs(rest) <= 3
  {
    var two := Acts(AbsorbSteps(h, b))[1..];
    assert two == [two[0]] + [two[1]];
    RecsAppend(two + tail, [last]);
    RecsAppend(two, tail);
    RecsAppend([two[0]], [two[1]]);
    RecsOne(two[0]);
    RecsOne(two[1]);
    RecsOne(last);
  }

  /**
   * When the process dies in a tlsf_realloc that grows the block in place, recovery gives back a good heap exactly if
   * nothing was stored yet.
   */
  lemma CrashedGrowth(h: Heap, b: nat, size: nat, uid: nat, i: nat)
    requires Good(h) && ReallocErr(View(h), b, uid) == Ok && b < |h.mem| && size > 0
    requires h.mem[b].size < BlockUnits(size) && FitsInPlace(h, b, BlockUnits(size))
    requires i <= |GrowActs(h, b, BlockUnits(size))|
    ensures Good(Recover(Run(h, GrowActs(h, b, BlockUnits(size))[..i]))) <==> i == 0
    ensures var r := Realloc(h, b, size, uid).h;
            Commit(Run(h, GrowActs(h, b, BlockUnits(size)))) == r && Recover(r) == r && Good(r)
  {
    hide Wf, Run, GrowActs, Walk, BlockUnits, Good, Recover, Realloc, FitsInPlace, TryInPlace, OwnerSet, View,
      ReallocErr, Expand;
    var s := ShapeOf(h);
    var needed := BlockUnits(size);
    UnitsPositive(size);
    LiveIsBlock(h, b, uid);
    ReallocAccepted(h, s, b, size, uid);
    GrowBeside(h, s, b, needed);
    var x := b + h.mem[b].size;
    if i > 0 { GrowBad(h, s, b, x, needed); }
    if i == 0 {
      RunNothing(h);
      assert GrowActs(h, b, needed)[..0] == [];
      NothingLogged(h);
    }
    GrowRuns(h, s, b, x, needed);
    InPlaceIs(h, s, b, needed);
    LegalInPlace(h, b, size, uid);
    StepGood(h, DoRealloc(b, size, uid));
    ApplyIs(h, b, size, uid);
    NothingLogged(Realloc(h, b, size, uid).h);
  }

  lemma InPlaceIs(h: Heap, s: Shape, b: nat, needed: nat)
    requires b < |h.mem| && Beside(h, s, b, b + h.mem[b].size, needed) && Expand(h, b, needed).Go?
    ensures TryInPlace(h, b, needed) == Yes(Expand(h, b, needed).h)
  {
    hide Sound, Expand, Walk;
    SoundFacts(h, s, NOBODY, b + h.mem[b].size);
  }

  lemma LegalInPlace(h: Heap, b: nat, size: nat, uid: nat)
    requires ReallocErr(View(h), b, uid) == Ok && b < |h.mem| && FitsInPlace(h, b, BlockUnits(size))
    ensures Legal(h, DoRealloc(b, size, uid))
  {
    hide View, Fits, FitsInPlace, BlockUnits, CheckBlock;
  }
}
