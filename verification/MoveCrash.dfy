/** A process that dies at any store of a tlsf_realloc that moves the block. */
module MoveCrash {
  import opened Heap
  import opened Invariant
  import opened Abstraction
  import opened MallocProof
  import opened ReallocProof
  import opened Search
  import opened Outcomes
  import opened Refinement
  import opened Blocks
  import opened Runs
  import opened UndoLog
  import opened MallocSteps
  import opened FreeSteps
  import opened MallocCrash
  import opened CrashFacts
  import opened FreeCrash

  /** memcpy between two blocks, unit by unit. */
  function CopyActs(h: Heap, from: nat, to: nat, n: nat): seq<Act> {
    seq(n, j requires 0 <= j < n => Fill(to + j, Get(h, from + j)))
  }

  /** malloc, memcpy and free of tlsf_realloc, with the new block at `to`. */
  function MoveActs(h: Heap, b: nat, to: nat, total: nat, uid: nat): seq<Act>
    requires b < |h.mem|
  {
    var claim := MallocActs(h, to, total, uid, h.mem[b].dtype);
    var c := Run(h, claim);
    var n := Min(h.mem[b].size, total) - 1;
    if n < 0 then claim else
      claim + CopyActs(c, b + 1, to + 1, n) + FreeActs(Copy(c, b + 1, to + 1, n), b, uid)
  }

  // ---------------------------------------------------------------- the copy

  lemma {:induction false} CopyRuns(h: Heap, from: nat, to: nat, n: nat)
    requires to + n <= |h.mem|
    ensures Run(h, CopyActs(h, from, to, n)) == Copy(h, from, to, n)
    decreases n
  {
    if n == 0 {
      RunNothing(h);
      assert Copy(h, from, to, 0).mem == h.mem;
    } else {
      hide Run;
      var last := Fill(to + (n - 1), Get(h, from + (n - 1)));
      assert CopyActs(h, from, to, n) == CopyActs(h, from, to, n - 1) + [last];
      CopyRuns(h, from, to, n - 1);
      RunAppend(h, CopyActs(h, from, to, n - 1), [last]);
      var g := Copy(h, from, to, n - 1);
      RunOne(g, last, []);
      assert g.mem[to + (n - 1) := Get(h, from + (n - 1))] == Copy(h, from, to, n).mem;
    }
  }

  lemma {:induction false} FillRun(g: Heap, acts: seq<Act>, to: nat)
    requires Hopeless(g, Stray(to)) && |g.log| <= 60 && forall i :: 0 <= i < |acts| ==> acts[i].Fill? && acts[i].u > to
    ensures Hopeless(Run(g, acts), Stray(to)) && Run(g, acts).log == g.log
    decreases |acts|
  {
    hide Hopeless;
    if acts != [] {
      CalmStep(g, acts[0], Stray(to));
      FillRun(Run1(g, acts[0]), acts[1..], to);
    }
  }

  lemma FillBad(g: Heap, acts: seq<Act>, to: nat)
    requires Hopeless(g, Stray(to)) && |g.log| <= 60 && forall i :: 0 <= i < |acts| ==> acts[i].Fill? && acts[i].u > to
    ensures AllBad(g, acts)
  {
    hide Hopeless, Good, Recover, Run;
    forall i | 0 < i <= |acts| ensures !Good(Recover(Run(g, acts[..i]))) {
      FillRun(g, acts[..i], to);
      HopelessIsBad(Run(g, acts[..i]), Stray(to));
    }
  }

  // ---------------------------------------------------------------- the claimed block

  /** What malloc leaves in the log: nothing about headers up to its block, and its first owner word as empty. */
  ghost predicate ClaimedLog(log: seq<Rec>, to: nat, units: nat) {
    && |log| <= 5 && Ready(log, units, Stray(to)) && InLog(log, UidAt(to, 0))
    && (forall i :: 0 <= i < |log| && log[i].addr.UidAt? ==> log[i] == Rec(UidAt(to, 0), NO_UIDS))
  }

  lemma NextLog(h: Heap, next: nat, size: nat, split: bool)
    requires h.log == [] && next < |h.mem|
    ensures var r := ClaimNext(h, next, size, split).h;
            && |r.log| <= 2
            && forall i :: 0 <= i < |r.log| ==> r.log[i].addr == FlagsAt(next) || r.log[i].addr == PrevSizeAt(next)
  {
    hide Recover, Read;
  }

  lemma StampLog(h: Heap, b: nat, uid: nat, dtype: nat)
    requires |h.log| <= 2 && b < |h.mem|
    ensures var r := Stamp(h, b, uid, dtype).h;
            && |r.log| == |h.log| + 3 && r.log[..|h.log|] == h.log
            && r.log[|h.log|].addr == SigAt(b)
            && r.log[|h.log| + 1] == Rec(UidAt(b, 0), NO_UIDS)
            && r.log[|h.log| + 2].addr == UsedAt
  {
    hide Recover;
  }

  lemma ClaimLog(h: Heap, b: nat, split: bool, uid: nat, dtype: nat)
    requires h.log == [] && b < |h.mem| < MAX_UNITS && 0 < h.mem[b].size && b + h.mem[b].size <= |h.mem|
    ensures ClaimedLog(Claim(h, b, split, uid, dtype).h.log, b, |h.mem|)
  {
    hide Recover, Read, Stamp, ClaimNext;
    var next := NextOf(h, b);
    var g := if next < |h.mem| then ClaimNext(h, next, h.mem[b].size, split).h else h;
    if next < |h.mem| {
      NextLog(h, next, h.mem[b].size, split);
      NextWrites(h, next, h.mem[b].size, split);
    }
    StampLog(g, b, uid, dtype);
    var log := Stamp(g, b, uid, dtype).h.log;
    assert log[|g.log| + 1].addr == UidAt(b, 0);
    forall i | 0 <= i < |g.log| ensures log[i] == g.log[i] {
      assert log[..|g.log|][i] == g.log[i];
    }
  }

  lemma ClaimedStray(h: Heap, s: Shape, to: nat, total: nat, uid: nat, dtype: nat)
    requires Wf(h, s) && to in s.free && to < |h.mem| && MIN_BLOCK <= total <= h.mem[to].size
    ensures var c := Claimed(h, to, total, uid, dtype).h;
            Hopeless(c, Stray(to)) && ClaimedLog(c.log, to, |c.mem|) && |c.mem| == |h.mem|
  {
    hide Wf, Carved, Sound, AfterMalloc, Claim, Walk, Local, Quiet, ClaimedLog, Ready;
    WfCore(h, s);
    CoreSound(h, s);
    LogIsEmpty(h, s);
    CarvedFrees(h, s, to, total);
    var c0, t := Carved(h, to, total), AfterMalloc(s, to, h.mem[to].size, total);
    SoundFacts(c0, t, NOBODY, to);
    var split := SubUnits(h.mem[to].size, total) >= MIN_BLOCK;
    ClaimLog(c0, to, split, uid, dtype);
    ClaimWrites(c0, to, split, uid, dtype);
    ClaimedSound(h, s, to, total, uid, dtype);
    var c := Claimed(h, to, total, uid, dtype).h;
    SoundTiled(c, t);
    LogReady(c, to);
    ReadyQuiet(c, Stray(to));
  }

  lemma LogReady(c: Heap, to: nat)
    requires ClaimedLog(c.log, to, |c.mem|)
    ensures Ready(c.log, |c.mem|, Stray(to)) && InLog(c.log, UidAt(to, 0))
    ensures forall i :: 0 <= i < |c.log| && c.log[i].addr.UidAt? && c.log[i].addr.u == to ==>
      c.log[i].addr.k == 0 && c.log[i].was == NO_UIDS
  {
  }

  // ---------------------------------------------------------------- giving the old block back

  lemma OpeningCalm(g: Heap, b: nat, uid: nat, to: nat)
    requires b < |g.mem| && b != to
    ensures AllCalm(Acts(OpeningSteps(g, b, uid)), g.mem, Stray(to)) && |OpeningSteps(g, b, uid)| <= 26
  {
    hide DropSteps;
    DropIsOwner(g.mem[b].uid, b, uid, 0);
    var steps := OpeningSteps(g, b, uid);
    forall i | 0 <= i < |steps| ensures Calm(Do(steps[i]), g.mem, Stray(to)) {
      assert i < |steps| - 2 ==> OwnerStep(steps[i], b);
    }
  }

  /** What the journaled beginning adds to the log. */
  ghost predicate Adds(before: seq<Rec>, log: seq<Rec>, b: nat, n: nat) {
    && |log| <= |before| + n
    && forall i :: 0 <= i < |log| ==>
         || (exists j :: 0 <= j < |before| && before[j] == log[i])
         || log[i].addr == UsedAt || (log[i].addr.UidAt? && log[i].addr.u == b)
  }

  lemma {:induction false} OpeningAdds(g: Heap, steps: seq<Step>, b: nat)
    requires |g.log| + |steps| < BUL_ENTRIES
    requires forall i :: 0 <= i < |steps| ==>
      OwnerStep(steps[i], b) || steps[i] == Records(UsedAt) || (steps[i].Stores? && steps[i].a == UsedAt)
    ensures Adds(g.log, Exec(g, steps).log, b, |steps|)
    decreases |steps|
  {
    hide Recover, Read, Write;
    if steps != [] {
      var r := Exec1(g, steps[0]);
      assert Adds(g.log, r.log, b, 1);
      OpeningAdds(r, steps[1..], b);
      AddsTrans(g.log, r.log, Exec(r, steps[1..]).log, b, |steps| - 1);
    }
  }

  lemma AddsTrans(x: seq<Rec>, y: seq<Rec>, z: seq<Rec>, b: nat, n: nat)
    requires Adds(x, y, b, 1) && Adds(y, z, b, n)
    ensures Adds(x, z, b, n + 1)
  {
    forall i | 0 <= i < |z|
      ensures (exists j :: 0 <= j < |x| && x[j] == z[i])
        || z[i].addr == UsedAt || (z[i].addr.UidAt? && z[i].addr.u == b)
    {
      if exists j :: 0 <= j < |y| && y[j] == z[i] {
        var j :| 0 <= j < |y| && y[j] == z[i];
      }
    }
  }

  lemma ReadyGrows(x: seq<Rec>, z: seq<Rec>, b: nat, units: nat, to: nat, n: nat)
    requires Ready(x, units, Stray(to)) && |x| <= 5 && Adds(x, z, b, n) && n <= 26 && b < units
    ensures Ready(z, units, Stray(to))
  {
    forall i | 0 <= i < |z|
      ensures (z[i].addr != UsedAt ==> z[i].addr.u < units) && (z[i].addr.FlagsAt? ==> z[i].addr.u > to)
    {
      if exists j :: 0 <= j < |x| && x[j] == z[i] {
        var j :| 0 <= j < |x| && x[j] == z[i];
      }
    }
  }

  /** The free of a moving realloc starts in a hopeless heap. */
  lemma MoveStarts(g: Heap, t: Shape, b: nat, to: nat, uid: nat)
    requires Owns(g, t, b, uid) && Hopeless(g, Stray(to)) && |g.log| <= 5 && Ready(g.log, |g.mem|, Stray(to))
    requires to in t.blocks && to !in t.free && to != b
    ensures Starts(Exec(g, OpeningSteps(g, b, uid)), t, b, Stray(to))
    ensures AllBad(g, Acts(OpeningSteps(g, b, uid)))
  {
    hide Core, Sound, Walk, OpeningSteps, Exec, Ready, Journaled, DropUid, UidCount, Release, Coalesced, Announce, Good,
      AllBad, AllCalm, Quiet, Owned;
    var steps := OpeningSteps(g, b, uid);
    Opened(g, t, b, uid);
    OpenedSound(g, t, b, uid);
    OpeningCalm(g, b, uid, to);
    BadRun(g, Acts(steps), Stray(to));
    CalmRun(g, Acts(steps), Stray(to));
    RunExec(g, steps);
    var w := Exec(g, steps);
    SoundTiled(w, t);
    OpeningIsOwner(g, b, uid);
    OpeningAdds(g, steps, b);
    ReadyGrows(g.log, w.log, b, |g.mem|, to, |steps|);
  }

  lemma OpeningIsOwner(g: Heap, b: nat, uid: nat)
    requires b < |g.mem|
    ensures forall i :: 0 <= i < |OpeningSteps(g, b, uid)| ==>
      var st := OpeningSteps(g, b, uid)[i];
      OwnerStep(st, b) || st == Records(UsedAt) || (st.Stores? && st.a == UsedAt)
  {
    hide DropSteps;
    DropIsOwner(g.mem[b].uid, b, uid, 0);
  }

  /** What holds before the old block is given back. */
  lemma StagedOwns(h: Heap, s: Shape, b: nat, to: nat, total: nat, uid: nat)
    requires Wf(h, s) && InRange(h.mem, s.blocks) && b in s.blocks && b < |h.mem| && !h.mem[b].free
    requires OwnerSet(h.mem[b].uid) == {uid} && uid != 0
    requires to in s.free && to < |h.mem| && MIN_BLOCK <= total <= h.mem[to].size
    ensures var c := Claimed(h, to, total, uid, h.mem[b].dtype).h; var n := KeptUnits(h, b, total) - 1;
            var g := Copy(c, b + 1, to + 1, n); var t := AfterMalloc(s, to, h.mem[to].size, total);
            && n >= 0 && to + 1 + n <= |c.mem| && |g.mem| == |h.mem|
            && Owns(g, t, b, uid) && g.log == c.log
            && to in t.blocks && to !in t.free && to != b
  {
    hide Core, Claimed, RulesKept, PayloadKept, Copy, AfterMalloc, OwnerSet, Moved, EntryOf;
    ListedIsFree(h, s, b);
    FreeListed(h, s, to);
    MallocWf(h, s, to, total, uid, h.mem[b].dtype);
    var c, t := Claimed(h, to, total, uid, h.mem[b].dtype).h, AfterMalloc(s, to, h.mem[to].size, total);
    IsLive(h, s, b);
    LiveHeader(c, t, b);
    LiveHeader(c, t, to);
    CopyCorrect(c, t, b, to, KeptUnits(h, b, total));
    LiveHeader(Copy(c, b + 1, to + 1, KeptUnits(h, b, total) - 1), t, b);
    ClaimedLength(h, s, to, total, uid, h.mem[b].dtype);
    ListedIsFree(c, t, b);
    ListedIsFree(c, t, to);
    CopyEffect(c, b, to, KeptUnits(h, b, total) - 1);
  }

  lemma ClaimedLength(h: Heap, s: Shape, to: nat, total: nat, uid: nat, dtype: nat)
    requires Wf(h, s) && to in s.free && to < |h.mem| && MIN_BLOCK <= total <= h.mem[to].size
    ensures |Claimed(h, to, total, uid, dtype).h.mem| == |h.mem|
    ensures to !in AfterMalloc(s, to, h.mem[to].size, total).free
  {
    hide Claimed, Hopeless, ClaimedLog, Sound, Clients, Total;
    ClaimedStray(h, s, to, total, uid, dtype);
    FreeHasSize(h, s, to);
  }

  lemma FreeHasSize(h: Heap, s: Shape, to: nat)
    requires Wf(h, s) && to in s.free && to < |h.mem|
    ensures h.mem[to].size > 0
  {
    hide Sound, Clients;
    FreeIsBlock(h, s, NOBODY, to);
    SoundFacts(h, s, NOBODY, to);
  }

  /** Every store of the three parts leaves a heap that recovery cannot repair. */
  lemma MoveBad(h: Heap, s: Shape, b: nat, to: nat, total: nat, uid: nat)
    requires Wf(h, s) && InRange(h.mem, s.blocks) && Walk(h.mem, 0) == s.blocks
    requires b in s.blocks && b < |h.mem| && !h.mem[b].free && OwnerSet(h.mem[b].uid) == {uid} && uid != 0
    requires to in s.free && to < |h.mem| && MIN_BLOCK <= total <= h.mem[to].size
    ensures AllBad(h, MoveActs(h, b, to, total, uid))
    ensures var c := Claimed(h, to, total, uid, h.mem[b].dtype).h; var n := KeptUnits(h, b, total) - 1;
            n >= 0 && Run(h, MoveActs(h, b, to, total, uid)) == FreeInternal(Copy(c, b + 1, to + 1, n), b, uid).h
  {
    hide Wf, Core, Claimed, Copy, AfterMalloc, OwnerSet, Walk, MallocActs, CopyActs, Run, Good, Recover, Hopeless,
      FreeInternal, ClaimedLog, Ready, MergeActs, OpeningSteps, AnnounceSteps, Exec, Starts, Coalesced, Owns;
    var dtype := h.mem[b].dtype;
    var c, t := Claimed(h, to, total, uid, dtype).h, AfterMalloc(s, to, h.mem[to].size, total);
    var n := KeptUnits(h, b, total) - 1;
    StagedOwns(h, s, b, to, total, uid);
    var g := Copy(c, b + 1, to + 1, n);
    var claim, copy := MallocActs(h, to, total, uid, dtype), CopyActs(c, b + 1, to + 1, n);
    forall i | 0 < i <= |claim| ensures !Good(Recover(Run(h, claim[..i]))) {
      CrashPoint(h, s, to, total, uid, dtype, i);
    }
    MallocRuns(h, s, to, total, uid, dtype);
    ClaimedStray(h, s, to, total, uid, dtype);
    CopyBad(c, b, to, n);
    CopyRuns(c, b + 1, to + 1, n);
    MoveReady(c, to);
    InsideBlock(g, t, b, uid);
    MoveStarts(g, t, b, to, uid);
    var w := Exec(g, OpeningSteps(g, b, uid));
    MergeBad(w, t, b, Stray(to));
    RunExec(g, OpeningSteps(g, b, uid));
    var m := Coalesced(w, b);
    BadAppend(g, Acts(OpeningSteps(g, b, uid)), MergeActs(w, b) + Acts(AnnounceSteps(m.h, m.b)));
    assert FreeActs(g, b, uid) == Acts(OpeningSteps(g, b, uid)) + (MergeActs(w, b) + Acts(AnnounceSteps(m.h, m.b)));
    FreeRuns(g, t, b, uid);
    BadAppend(c, copy, FreeActs(g, b, uid));
    BadAppend(h, claim, copy + FreeActs(g, b, uid));
    RunAppend(h, claim, copy + FreeActs(g, b, uid));
    RunAppend(c, copy, FreeActs(g, b, uid));
    assert MoveActs(h, b, to, total, uid) == claim + (copy + FreeActs(g, b, uid));
  }

  lemma InsideBlock(g: Heap, t: Shape, b: nat, uid: nat)
    requires Owns(g, t, b, uid)
    ensures b < |g.mem|
  {
  }

  lemma MoveReady(c: Heap, to: nat)
    requires ClaimedLog(c.log, to, |c.mem|)
    ensures Ready(c.log, |c.mem|, Stray(to)) && |c.log| <= 5
  {
  }

  lemma CopyBad(c: Heap, b: nat, to: nat, n: nat)
    requires Hopeless(c, Stray(to)) && ClaimedLog(c.log, to, |c.mem|) && to + 1 + n <= |c.mem|
    ensures AllBad(c, CopyActs(c, b + 1, to + 1, n))
    ensures Hopeless(Copy(c, b + 1, to + 1, n), Stray(to))
  {
    hide Hopeless, Run;
    FillBad(c, CopyActs(c, b + 1, to + 1, n), to);
    FillRun(c, CopyActs(c, b + 1, to + 1, n), to);
    CopyRuns(c, b + 1, to + 1, n);
  }

  /** The stores of a tlsf_realloc that moves. */
  function MoveStores(h: Heap, b: nat, size: nat, uid: nat): seq<Act>
    requires b < |h.mem| && FindFor(h, BlockUnits(size)).At?
  {
    MoveActs(h, b, FindFor(h, BlockUnits(size)).u, BlockUnits(size), uid)
  }

  /**
   * When the process dies in a tlsf_realloc that moves the block, recovery gives back a good heap exactly if nothing
   * was stored yet.
   */
  lemma CrashedMove(h: Heap, b: nat, size: nat, uid: nat, i: nat)
    requires Good(h) && ReallocErr(View(h), b, uid) == Ok && b < |h.mem| && size > 0
    requires !FitsInPlace(h, b, BlockUnits(size)) && Fits(h, size) && FindFor(h, BlockUnits(size)).At?
    requires i <= |MoveStores(h, b, size, uid)|
    ensures Good(Recover(Run(h, MoveStores(h, b, size, uid)[..i]))) <==> i == 0
    ensures var r := Realloc(h, b, size, uid).h;
            Commit(Run(h, MoveStores(h, b, size, uid))) == r && Recover(r) == r && Good(r)
  {
    hide Wf, Run, MoveActs, Walk, FindFor, BlockUnits, Good, Recover, Realloc, FitsInPlace, TryInPlace,
      FreeInternal, Copy, Claimed, OwnerSet, View, ReallocErr, Move;
    var s := ShapeOf(h);
    var to, total := FindFor(h, BlockUnits(size)).u, BlockUnits(size);
    UnitsPositive(size);
    WfCore(h, s);
    FoundIsFree(h, s, total);
    LiveIsBlock(h, b, uid);
    ReallocAccepted(h, s, b, size, uid);
    MoveBad(h, s, b, to, total, uid);
    if i == 0 {
      RunNothing(h);
      assert MoveStores(h, b, size, uid)[..0] == [];
      NothingLogged(h);
    }
    MoveEnds(h, s, b, size, uid);
  }

  lemma MoveEnds(h: Heap, s: Shape, b: nat, size: nat, uid: nat)
    requires Wf(h, s) && Good(h) && InRange(h.mem, s.blocks) && Walk(h.mem, 0) == s.blocks
    requires View(h) == Live(h.mem, s.blocks) && ReallocErr(View(h), b, uid) == Ok
    requires b in s.blocks && b < |h.mem| && size > 0
    requires !h.mem[b].free && OwnerSet(h.mem[b].uid) == {uid} && uid != 0
    requires !FitsInPlace(h, b, BlockUnits(size)) && Fits(h, size) && FindFor(h, BlockUnits(size)).At?
    ensures var to, total := FindFor(h, BlockUnits(size)).u, BlockUnits(size);
            && to < |h.mem|
            && var c := Claimed(h, to, total, uid, h.mem[b].dtype).h;
            && KeptUnits(h, b, total) >= 1
            && Commit(FreeInternal(Copy(c, b + 1, to + 1, KeptUnits(h, b, total) - 1), b, uid).h)
               == Realloc(h, b, size, uid).h
    ensures var r := Realloc(h, b, size, uid).h; Recover(r) == r && Good(r)
  {
    hide Wf, Core, Claimed, FindFor, BlockUnits, Good, Recover, Realloc, FitsInPlace, TryInPlace, FreeInternal,
      Copy, OwnerSet, View, ReallocErr, Live, MallocInternal, MoveFacts, RulesKept, Walk, Move;
    UnitsPositive(size);
    var total := BlockUnits(size);
    WfCore(h, s);
    FoundIsFree(h, s, total);
    var to := FindFor(h, total).u;
    InPlaceCorrect(h, s, b, total);
    MallocPaths(h, s, size, uid, h.mem[b].dtype);
    ReallocAccepted(h, s, b, size, uid);
    FitsFound(h, size);
    var t := MoveCorrect(h, s, b, to, total, uid);
    ListedIsFree(h, s, b);
    MoveIs(h, b, to, size, total, uid);
    LegalMove(h, b, size, uid);
    var op := DoRealloc(b, size, uid);
    StepGood(h, op);
    ApplyIs(h, b, size, uid);
    NothingLogged(Realloc(h, b, size, uid).h);
  }

  lemma FitsFound(h: Heap, size: nat)
    requires Fits(h, size) && FindFor(h, BlockUnits(size)).At? && FindFor(h, BlockUnits(size)).u < |h.mem|
    ensures BlockUnits(size) <= h.mem[FindFor(h, BlockUnits(size)).u].size
  {
    hide FindFor, BlockUnits;
  }

  lemma MoveIs(h: Heap, b: nat, to: nat, size: nat, total: nat, uid: nat)
    requires b < |h.mem| && to < |h.mem| && h.mem[b].size >= MIN_BLOCK && total == BlockUnits(size)
    requires var c := Claimed(h, to, total, uid, h.mem[b].dtype);
      && c.Go? && MallocInternal(h, size, uid, h.mem[b].dtype) == Alloc(c.h, At(to + 1), Ok)
      && FreeInternal(Copy(c.h, b + 1, to + 1, KeptUnits(h, b, total) - 1), b, uid).err == Ok
    ensures var c := Claimed(h, to, total, uid, h.mem[b].dtype).h;
            var g := Copy(c, b + 1, to + 1, KeptUnits(h, b, total) - 1);
            Move(h, b, size, uid).h == Commit(FreeInternal(g, b, uid).h)
  {
    hide Claimed, MallocInternal, FreeInternal, Copy, BlockUnits, Recover;
  }

  lemma LegalMove(h: Heap, b: nat, size: nat, uid: nat)
    requires ReallocErr(View(h), b, uid) == Ok && Fits(h, size)
    ensures Legal(h, DoRealloc(b, size, uid))
  {
    hide View, Fits, FitsInPlace, BlockUnits, CheckBlock;
  }
}
