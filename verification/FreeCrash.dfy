/** A process that dies at any store of the last owner's tlsf_free. */
module FreeCrash {
  import opened Mapping
  import opened Heap
  import opened Invariant
  import opened FreeProof
  import opened Blocks
  import opened Runs
  import opened UndoLog
  import opened MallocSteps
  import opened FreeSteps
  import opened MallocCrash
  import opened CrashFacts
  import LogBounds

  /** The log records no header that the free will change. */
  ghost predicate Ready(log: seq<Rec>, units: nat, why: Why) {
    && |log| <= 40
    && (forall i :: 0 <= i < |log| && log[i].addr != UsedAt ==> log[i].addr.u < units)
    && (forall i :: 0 <= i < |log| && log[i].addr.FlagsAt? ==> why.Stray? && log[i].addr.u > why.to)
  }

  lemma ReadyQuiet(g: Heap, why: Why)
    requires Ready(g.log, |g.mem|, why)
    ensures Quiet(g, Bound(g.mem, why))
  {
  }

  /** The same outline except at u, the same owners and the same log. */
  ghost predicate Alike(w: Heap, g: Heap, u: nat) {
    && |g.mem| == |w.mem| && u < |g.mem| && g.log == w.log
    && forall v :: 0 <= v < |w.mem| ==>
         && g.mem[v].uid == w.mem[v].uid
         && (v != u ==> g.mem[v].size == w.mem[v].size && g.mem[v].free == w.mem[v].free)
  }

  /** The outline of w with another header at lo. */
  ghost predicate Reshaped(w: Heap, g: Heap, lo: nat, size: nat, free: bool) {
    Alike(w, g, lo) && g.mem[lo].size == size && g.mem[lo].free == free
  }

  /** What is known when the structural part of the free starts. */
  ghost predicate Starts(w: Heap, s: Shape, b: nat, why: Why) {
    && Sound(w, s, NOBODY) && FlagsAgree(w.mem, s) && Walk(w.mem, 0) == s.blocks
    && b in s.blocks && b !in s.free && b < |w.mem|
    && Ready(w.log, |w.mem|, why)
    && match why
       case Miscounts(used) => Counts(w.log, used) && LiveBytes(w.mem, 0) == used
       case Stray(to) => Clears(w, to) && to in s.blocks && to !in s.free && to != b
  }

  /** The bytes that the walk counts from the merged block on. */
  lemma BytesFromLow(w: Heap, s: Shape, b: nat)
    requires Sound(w, s, NOBODY) && FlagsAgree(w.mem, s) && b in s.blocks && b !in s.free && b < |w.mem|
    ensures var lo, e, hi := Lo(w, b), b + w.mem[b].size, Hi(w, b);
            && lo in s.blocks && lo <= b < e <= hi <= |w.mem| && w.mem[b].size >= MIN_BLOCK
            && !w.mem[b].free
            && (lo < b ==> MergesBack(w, b) && lo in s.free && w.mem[lo].size == b - lo && w.mem[lo].free)
            && (lo == b ==> !MergesBack(w, b))
            && (e < hi ==> e < |w.mem| && e in s.free && w.mem[e].free && w.mem[e].size == hi - e)
            && (e == hi ==> e == |w.mem| || !w.mem[e].free)
            && LiveBytes(w.mem, lo) == 64 * (w.mem[b].size - 1) + LiveBytes(w.mem, e)
            && LiveBytes(w.mem, e) == LiveBytes(w.mem, hi)
  {
    hide Sound;
    SoundFacts(w, s, NOBODY, b);
    EdgeIsBlock(w, s, NOBODY, b);
    var e := b + w.mem[b].size;
    if e < |w.mem| { SoundFacts(w, s, NOBODY, e); }
    if MergesBack(w, b) {
      LeftNeighbour(w, s, b);
      FreeIsBlock(w, s, NOBODY, Lo(w, b));
    }
  }

  lemma {:induction false} WalkThrough(mem: seq<Line>, p: nat, lo: nat, to: nat)
    requires lo in Walk(mem, p) && to in Walk(mem, lo)
    ensures to in Walk(mem, p)
    decreases |mem| - p
  {
    if p < lo { WalkThrough(mem, p + mem[p].size, lo, to); }
  }

  lemma {:induction false} WalkBehind(a: seq<Line>, c: seq<Line>, p: nat)
    requires |a| == |c| && forall u :: p <= u < |a| ==> a[u].size == c[u].size
    ensures Walk(a, p) == Walk(c, p)
    decreases |a| - p
  {
    if p < |a| && a[p].size > 0 { WalkBehind(a, c, p + a[p].size); }
  }

  /** A block outside the merged one is still met. */
  lemma StillMet(w: Heap, g: Heap, s: Shape, b: nat, size: nat, free: bool, to: nat)
    requires Sound(w, s, NOBODY) && FlagsAgree(w.mem, s) && Walk(w.mem, 0) == s.blocks && b in s.blocks && b !in s.free
    requires b < |w.mem| && to in s.blocks && to !in s.free && to != b
    requires var lo, e, hi := Lo(w, b), b + w.mem[b].size, Hi(w, b);
      Reshaped(w, g, lo, size, free) && (lo + size == e || lo + size == hi)
    ensures to in Walk(g.mem, 0) && to < |g.mem| && !g.mem[to].free && to != Lo(w, b)
  {
    hide Sound, Walk, LiveBytes;
    var lo, e, hi := Lo(w, b), b + w.mem[b].size, Hi(w, b);
    BytesFromLow(w, s, b);
    SoundFacts(w, s, NOBODY, b);
    SoundFacts(w, s, NOBODY, to);
    EdgeIsBlock(w, s, NOBODY, b);
    if e < hi { EdgeIsBlock(w, s, NOBODY, e); }
    WalkMeets(w.mem, g.mem, 0, if to < lo then to else lo);
    if lo < to {
      InRegion(w, s, b, to);
      WalkFrom(w.mem, s.blocks, lo + size);
      WalkBehind(w.mem, g.mem, lo + size);
      FirstStep(g.mem, lo, to);
      WalkThrough(g.mem, 0, lo, to);
    }
  }

  lemma FirstStep(mem: seq<Line>, lo: nat, to: nat)
    requires lo < |mem| && mem[lo].size > 0 && to in Walk(mem, lo + mem[lo].size)
    ensures to in Walk(mem, lo)
  {
  }

  /** Between the ends of the merged block there are its parts only. */
  lemma InRegion(w: Heap, s: Shape, b: nat, to: nat)
    requires Sound(w, s, NOBODY) && FlagsAgree(w.mem, s) && b in s.blocks && b !in s.free && b < |w.mem|
    requires to in s.blocks && to !in s.free && to != b && Lo(w, b) < to
    ensures to >= Hi(w, b)
  {
    RegionBlocks(w, s, b);
  }

  lemma StartsHopeless(w: Heap, s: Shape, b: nat, why: Why)
    requires Starts(w, s, b, why) && why.Stray?
    ensures Hopeless(w, why)
  {
    hide Sound, Walk;
    ReadyQuiet(w, why);
  }

  /** From the first header store on the walk counts too little, or a block that is too large. */
  lemma ReshapedHopeless(w: Heap, g: Heap, s: Shape, b: nat, size: nat, free: bool, why: Why)
    requires Starts(w, s, b, why)
    requires var lo, e, hi := Lo(w, b), b + w.mem[b].size, Hi(w, b);
      && Reshaped(w, g, lo, size, free) && (lo + size == e || lo + size == hi)
      && (free || (lo == b && e < hi && lo + size == hi))
    ensures Hopeless(g, why) && |g.log| <= 40
  {
    hide Sound, LiveBytes, FlagsAgree, Walk, Quiet;
    BytesFromLow(w, s, b);
    ReadyQuiet(g, why);
    match why
    case Miscounts(used) => BytesAt(w.mem, g.mem, Lo(w, b));
    case Stray(to) => StillMet(w, g, s, b, size, free, to);
  }

  // ---------------------------------------------------------------- store by store

  /** While a free neighbour is taken off its list it is lost. */
  lemma UnlinkBad(w: Heap, s: Shape, b: nat, x: nat, why: Why)
    requires Starts(w, s, b, why) && x in s.free && x < |w.mem| && w.mem[x].free
    ensures AllBad(w, UnlinkActs(w, x, Class(w.mem[x].size)))
  {
    hide Class, UnlinkActs, Sound, Walk, FlagsAgree, AllBad, Ready, Hopeless, AllCalm, LiveBytes;
    var k := Class(w.mem[x].size);
    match why
    case Miscounts(_) => UnlinkLoses(w, s, x);
    case Stray(_) =>
      StartsHopeless(w, s, b, why);
      ReadyShort(w.log, |w.mem|, why);
      UnlinkCalm(w, x, k, w.mem, why);
      BadRun(w, UnlinkActs(w, x, k), why);
  }

  lemma ReadyShort(log: seq<Rec>, units: nat, why: Why)
    requires Ready(log, units, why)
    ensures |log| <= 40
  {
  }

  lemma UnlinkLoses(w: Heap, s: Shape, x: nat)
    requires Sound(w, s, NOBODY) && Walk(w.mem, 0) == s.blocks && x in s.free && x < |w.mem| && w.mem[x].free
    requires exists used :: Ready(w.log, |w.mem|, Miscounts(used))
    ensures AllBad(w, UnlinkActs(w, x, Class(w.mem[x].size)))
  {
    hide Sound, Walk, Class, Lost, Run, Run1, UnlinkActs, Good, Recover, Ready, Spares, Quiet;
    var used :| Ready(w.log, |w.mem|, Miscounts(used));
    var acts := UnlinkActs(w, x, Class(w.mem[x].size));
    UnlinkSome(w, x, Class(w.mem[x].size));
    FirstLoses(w, s, x);
    var g := Run1(w, acts[0]);
    SizeKept(w, acts[0]);
    forall i | 0 < i <= |acts| ensures !Good(Recover(Run(w, acts[..i]))) {
      assert acts[..i] == [acts[0]] + acts[1..i];
      RunOne(w, acts[0], acts[1..i]);
      SparedRun(g, acts[1..i], x);
      var r := Run(w, acts[..i]);
      RunSize(g, acts[1..i]);
      ReadyQuiet(r, Miscounts(used));
      LostStaysLost(r, x, |r.mem|);
    }
  }

  lemma SizeKept(h: Heap, a: Act)
    ensures |Run1(h, a).mem| == |h.mem|
  {
    hide Undo;
  }

  lemma {:induction false} RunSize(h: Heap, acts: seq<Act>)
    ensures |Run(h, acts).mem| == |h.mem|
    decreases |acts|
  {
    hide Run1;
    if acts != [] {
      SizeKept(h, acts[0]);
      RunSize(Run1(h, acts[0]), acts[1..]);
    }
  }

  lemma UnlinkCalm(h: Heap, x: nat, k: nat, mem: seq<Line>, why: Why)
    requires k < CLASSES
    ensures AllCalm(UnlinkActs(h, x, k), mem, why) && |UnlinkActs(h, x, k)| <= 4
  {
  }

  lemma InsertCalm(h: Heap, x: nat, k: nat, mem: seq<Line>, why: Why)
    requires k < CLASSES
    ensures AllCalm(InsertActs(h, x, k), mem, why) && |InsertActs(h, x, k)| <= 6
  {
  }

  lemma RemoveOutline(h: Heap, x: nat, k: nat)
    requires k < CLASSES
    ensures var r := RemoveFree(h, x, k);
            && |r.mem| == |h.mem| && r.log == h.log
            && forall u :: 0 <= u < |h.mem| ==>
                 r.mem[u] == h.mem[u].(prev := r.mem[u].prev, next := r.mem[u].next)
  {
    hide RemoveFree;
    LogBounds.ListsKeepLog(h, x, k);
    forall u | 0 <= u < |h.mem|
      ensures var r := RemoveFree(h, x, k);
        u < |r.mem| && r.mem[u] == h.mem[u].(prev := r.mem[u].prev, next := r.mem[u].next)
    {
      SameFlags(h, x, k, u);
    }
  }

  /** The store that enlarges the merged header, and calm stores after it. */
  lemma GrownBad(w: Heap, g: Heap, s: Shape, b: nat, l: Line, size: nat, rest: seq<Act>, why: Why)
    requires Starts(w, s, b, why) && Alike(w, g, Lo(w, b))
    requires var lo, e, hi := Lo(w, b), b + w.mem[b].size, Hi(w, b);
      && l.free == g.mem[lo].free && (lo + size == e || lo + size == hi)
      && (l.free || (lo == b && e < hi && lo + size == hi))
      && AllCalm(rest, g.mem[lo := g.mem[lo].(size := size)], why) && |rest| <= 10
    ensures AllBad(g, [SizeAct(l, Lo(w, b), size)] + rest)
    ensures Reshaped(w, Run1(g, SizeAct(l, Lo(w, b), size)), Lo(w, b), size, l.free)
  {
    hide Sound, FlagsAgree, Walk, Run, LiveBytes, Good, Recover, Hopeless, Calm, Run1;
    var act := SizeAct(l, Lo(w, b), size);
    SizeShapes(w, g, act, Lo(w, b), l, size);
    var r := Run1(g, act);
    ReshapedHopeless(w, r, s, b, size, l.free, why);
    forall i | 0 <= i < |rest| ensures Calm(rest[i], r.mem, why) {
      CalmTrans(rest[i], g.mem[Lo(w, b) := g.mem[Lo(w, b)].(size := size)], r.mem, why);
    }
    BadChunk(g, act, rest, why);
  }

  lemma BackMerged(w: Heap, s: Shape, b: nat, p: nat, why: Why)
    requires Starts(w, s, b, why) && MergesBack(w, b) && p == Lo(w, b) && p < |w.mem|
    ensures var size := w.mem[p].size + w.mem[b].size;
            && AllBad(w, UnlinkActs(w, p, Class(w.mem[p].size)) + [SizeAct(w.mem[p], p, size)])
            && Reshaped(w, Run(w, UnlinkActs(w, p, Class(w.mem[p].size)) + [SizeAct(w.mem[p], p, size)]), p, size, true)
  {
    hide Sound, FlagsAgree, Walk, Class, Run, UnlinkActs, RemoveFree, LiveBytes, Good, Recover, Ready, AllBad,
      AllCalm, Run1, Reshaped, Calm;
    BytesFromLow(w, s, b);
    var k, size := Class(w.mem[p].size), w.mem[p].size + w.mem[b].size;
    BackReady(w, s, b);
    UnlinkBad(w, s, b, p, why);
    RemoveOutline(w, p, k);
    UnlinkRuns(w, p, k);
    var g := RemoveFree(w, p, k);
    CalmNothing(g.mem[p := g.mem[p].(size := size)], why);
    GrownBad(w, g, s, b, w.mem[p], size, [], why);
    var act := SizeAct(w.mem[p], p, size);
    assert [act] + [] == [act];
    BadAppend(w, UnlinkActs(w, p, k), [act]);
    RunAppend(w, UnlinkActs(w, p, k), [act]);
    RunOne(g, act, []);
  }

  /** The backward merge. */
  lemma BackBad(w: Heap, s: Shape, b: nat, why: Why)
    requires Starts(w, s, b, why)
    ensures AllBad(w, BackActs(w, b)) && Run(w, BackActs(w, b)) == CoalescePrev(w, b).h
    ensures var m, lo := CoalescePrev(w, b), Lo(w, b);
            && m.b == lo && (lo == b ==> m.h == w)
            && (lo < b ==> Reshaped(w, m.h, lo, b + w.mem[b].size - lo, true))
  {
    hide Sound, FlagsAgree, Walk, Class, Run, UnlinkActs, RemoveFree, LiveBytes, AllBad, Reshaped, Ready;
    BytesFromLow(w, s, b);
    SoundFacts(w, s, NOBODY, b);
    if MergesBack(w, b) {
      BackReady(w, s, b);
      BackRuns(w, b);
      BackMerged(w, s, b, Lo(w, b), why);
    } else {
      BadNothing(w);
      RunNothing(w);
    }
  }

  lemma CalmNothing(mem: seq<Line>, why: Why)
    ensures AllCalm([], mem, why)
  {
  }

  /** The effect of one size store. */
  lemma SizeShapes(w: Heap, g: Heap, act: Act, u: nat, l: Line, size: nat)
    requires Alike(w, g, u) && act == SizeAct(l, u, size) && l.free == g.mem[u].free
    ensures Reshaped(w, Run1(g, act), u, size, l.free)
    ensures Run1(g, act) == Put(g, u, g.mem[u].(size := size, prevFree := l.prevFree))
  {
  }

  lemma SwallowShapes(w: Heap, g: Heap, lo: nat, more: nat, free: bool)
    requires Alike(w, g, lo) && |w.mem| < MAX_UNITS && g.mem[lo].free == free
    requires 0 < g.mem[lo].size && lo + g.mem[lo].size + more <= |w.mem|
    ensures Reshaped(w, Swallow(g, lo, more), lo, g.mem[lo].size + more, free)
  {
  }

  /** The stores of coalesce_next behind the first one. */
  lemma SwallowCalm(g: Heap, lo: nat, more: nat, why: Why)
    requires lo < |g.mem| < MAX_UNITS && 0 < g.mem[lo].size && lo + g.mem[lo].size + more <= |g.mem|
    ensures var size := g.mem[lo].size + more; var acts := SwallowActs(g, lo, more);
            && acts == [SizeAct(g.mem[lo], lo, size)] + acts[1..] && |acts| <= 4
            && AllCalm(acts[1..], g.mem[lo := g.mem[lo].(size := size)], why)
  {
  }

  /** The forward merge's stores of headers. */
  lemma SwallowBad(w: Heap, g: Heap, s: Shape, b: nat, more: nat, why: Why)
    requires Starts(w, s, b, why) && Alike(w, g, Lo(w, b))
    requires var lo, e, hi := Lo(w, b), b + w.mem[b].size, Hi(w, b);
      && e < hi && more == hi - e && g.mem[lo].size == e - lo && g.mem[lo].free == (lo < b)
    ensures AllBad(g, SwallowActs(g, Lo(w, b), more))
    ensures Reshaped(w, Swallow(g, Lo(w, b), more), Lo(w, b), Hi(w, b) - Lo(w, b), Lo(w, b) < b)
  {
    hide Sound, FlagsAgree, Walk, LiveBytes, Ready, AllBad, Reshaped, SwallowActs, Swallow, MergesBack;
    BytesFromLow(w, s, b);
    SoundFacts(w, s, NOBODY, b);
    var lo, size := Lo(w, b), Hi(w, b) - Lo(w, b);
    SwallowCalm(g, lo, more, why);
    var acts := SwallowActs(g, lo, more);
    GrownBad(w, g, s, b, g.mem[lo], size, acts[1..], why);
    SwallowShapes(w, g, lo, more, lo < b);
  }

  /** The forward merge while the block behind is taken off its list. */
  lemma FrontUnlinkBad(w: Heap, s: Shape, b: nat, why: Why)
    requires Starts(w, s, b, why) && b + w.mem[b].size < Hi(w, b) && b + w.mem[b].size < |CoalescePrev(w, b).h.mem|
    ensures var m, e := CoalescePrev(w, b).h, b + w.mem[b].size;
            AllBad(m, UnlinkActs(m, e, Class(m.mem[e].size)))
  {
    hide Sound, FlagsAgree, Walk, Class, UnlinkActs, LiveBytes, AllBad, Ready, CoalescePrev, BackActs, MergesBack,
      AllCalm, Run;
    var m, lo, e := CoalescePrev(w, b).h, Lo(w, b), b + w.mem[b].size;
    BytesFromLow(w, s, b);
    BackBad(w, s, b, why);
    if lo < b {
      ReshapedHopeless(w, m, s, b, e - lo, true, why);
      UnlinkCalm(m, e, Class(m.mem[e].size), m.mem, why);
      BadRun(m, UnlinkActs(m, e, Class(m.mem[e].size)), why);
    } else {
      UnlinkBad(w, s, b, e, why);
    }
  }

  /** The forward merge, after the backward one. */
  lemma FrontBad(w: Heap, s: Shape, b: nat, why: Why)
    requires Starts(w, s, b, why)
    ensures var m, lo := CoalescePrev(w, b).h, Lo(w, b);
            && AllBad(m, FrontActs(m, lo)) && Run(m, FrontActs(m, lo)) == CoalesceFree(m, lo)
            && Reshaped(w, CoalesceFree(m, lo), lo, Hi(w, b) - lo, lo < b)
  {
    hide Sound, FlagsAgree, Walk, Class, Run, UnlinkActs, RemoveFree, LiveBytes, AllBad, Ready, CoalescePrev, BackActs,
      SwallowActs, Swallow, MergesBack, AllCalm;
    var m, lo, e, hi := CoalescePrev(w, b).h, Lo(w, b), b + w.mem[b].size, Hi(w, b);
    BytesFromLow(w, s, b);
    SoundFacts(w, s, NOBODY, b);
    BackBad(w, s, b, why);
    FrontReady(w, s, b);
    FrontRuns(m, lo);
    if e < hi {
      var k := Class(m.mem[e].size);
      FrontUnlinkBad(w, s, b, why);
      var g := RemoveFree(m, e, k);
      RemoveOutline(m, e, k);
      UnlinkRuns(m, e, k);
      SwallowBad(w, g, s, b, hi - e, why);
      BadAppend(m, UnlinkActs(m, e, k), SwallowActs(g, lo, hi - e));
    } else {
      BadNothing(m);
    }
  }

  /** mark_block_free. */
  lemma MarkBad(w: Heap, g: Heap, s: Shape, b: nat, why: Why)
    requires Starts(w, s, b, why) && Reshaped(w, g, Lo(w, b), Hi(w, b) - Lo(w, b), Lo(w, b) < b)
    ensures AllBad(g, MarkActs(g, Lo(w, b)))
    ensures Reshaped(w, MarkFree(g, Lo(w, b)), Lo(w, b), Hi(w, b) - Lo(w, b), true)
  {
    hide Sound, FlagsAgree, Walk, LiveBytes, Ready, AllBad, MergesBack, Run, Hopeless;
    BytesFromLow(w, s, b);
    var lo, acts := Lo(w, b), MarkActs(g, Lo(w, b));
    MarkShapes(w, g, lo, Hi(w, b) - lo, lo < b);
    var r := Run1(g, acts[0]);
    ReshapedHopeless(w, r, s, b, Hi(w, b) - lo, true, why);
    BadChunk(g, acts[0], [acts[1]], why);
    assert acts == [acts[0]] + [acts[1]];
  }

  lemma MarkShapes(w: Heap, g: Heap, lo: nat, size: nat, free: bool)
    requires Reshaped(w, g, lo, size, free)
    ensures Reshaped(w, Run1(g, MarkActs(g, lo)[0]), lo, size, true) && Reshaped(w, MarkFree(g, lo), lo, size, true)
  {
  }

  /** insert_into_free_list and the announcement. */
  lemma ListBad(w: Heap, g: Heap, s: Shape, b: nat, k: nat, why: Why)
    requires Starts(w, s, b, why) && Reshaped(w, g, Lo(w, b), Hi(w, b) - Lo(w, b), true) && k < CLASSES
    ensures AllBad(g, InsertActs(g, Lo(w, b), k))
    ensures var r := InsertFree(g, Lo(w, b), k);
            AllBad(r, Acts(AnnounceSteps(r, Lo(w, b))))
  {
    hide Sound, FlagsAgree, Walk, LiveBytes, Ready, AllBad, MergesBack, Run, Hopeless, InsertFree, Reshaped,
      AnnounceSteps, AllCalm;
    BytesFromLow(w, s, b);
    var lo, acts := Lo(w, b), InsertActs(g, Lo(w, b), k);
    ShapeLog(w, g, lo, Hi(w, b) - lo);
    ReshapedHopeless(w, g, s, b, Hi(w, b) - lo, true, why);
    InsertCalm(g, lo, k, g.mem, why);
    BadRun(g, acts, why);
    CalmRun(g, acts, why);
    InsertRuns(g, lo, k);
    var r := InsertFree(g, lo, k);
    AnnounceCalm(r, lo, why);
    BadRun(r, Acts(AnnounceSteps(r, lo)), why);
  }

  lemma ShapeLog(w: Heap, g: Heap, lo: nat, size: nat)
    requires Reshaped(w, g, lo, size, true)
    ensures g.log == w.log && |g.mem| == |w.mem|
  {
  }

  lemma AnnounceCalm(g: Heap, b: nat, why: Why)
    ensures AllCalm(Acts(AnnounceSteps(g, b)), g.mem, why) && |AnnounceSteps(g, b)| <= 4
  {
  }

  /** Everything behind the journaled beginning. */
  lemma MergeBad(w: Heap, s: Shape, b: nat, why: Why)
    requires Starts(w, s, b, why)
    ensures var m := Coalesced(w, b); AllBad(w, MergeActs(w, b) + Acts(AnnounceSteps(m.h, m.b)))
  {
    hide Sound, FlagsAgree, Walk, LiveBytes, Ready, AllBad, MergesBack, Run, InsertFree, Reshaped, AnnounceSteps,
      BackActs, FrontActs, MarkActs, InsertActs, CoalescePrev, CoalesceFree, MarkFree, Class;
    SoundFacts(w, s, NOBODY, b);
    BackBad(w, s, b, why);
    FrontBad(w, s, b, why);
    var m, lo := CoalescePrev(w, b).h, Lo(w, b);
    var f := CoalesceFree(m, lo);
    MarkBad(w, f, s, b, why);
    var g := MarkFree(f, lo);
    var k := Class(Get(g, lo).size);
    ListBad(w, g, s, b, k, why);
    LowInside(w, f, lo, Hi(w, b) - lo, lo < b);
    MarkRuns(f, lo);
    InsertRuns(g, lo, k);
    var r := InsertFree(g, lo, k);
    BadAppend(g, InsertActs(g, lo, k), Acts(AnnounceSteps(r, lo)));
    var last := InsertActs(g, lo, k) + Acts(AnnounceSteps(r, lo));
    BadAppend(f, MarkActs(f, lo), last);
    BadAppend(m, FrontActs(m, lo), MarkActs(f, lo) + last);
    BadAppend(w, BackActs(w, b), FrontActs(m, lo) + (MarkActs(f, lo) + last));
    assert MergeActs(w, b) + Acts(AnnounceSteps(r, lo))
      == BackActs(w, b) + (FrontActs(m, lo) + (MarkActs(f, lo) + last));
  }

  lemma LowInside(w: Heap, f: Heap, lo: nat, size: nat, free: bool)
    requires Reshaped(w, f, lo, size, free)
    ensures lo < |f.mem|
  {
  }

  // ---------------------------------------------------------------- every crash point

  predicate OwnerStep(st: Step, b: nat) {
    match st
    case Records(a) => a.UidAt? && a.u == b
    case Stores(a, _) => a.UidAt? && a.u == b
    case Undoes(_) => false
  }

  ghost predicate OwnerLog(log: seq<Rec>, b: nat) {
    forall i :: 0 <= i < |log| ==> log[i].addr.UidAt? && log[i].addr.u == b
  }

  lemma {:induction false} OwnerSteps(h: Heap, steps: seq<Step>, b: nat)
    requires OwnerLog(h.log, b) && |h.log| + |steps| < BUL_ENTRIES
    requires forall i :: 0 <= i < |steps| ==> OwnerStep(steps[i], b)
    ensures var r := Exec(h, steps); OwnerLog(r.log, b) && r.used == h.used && |r.log| <= |h.log| + |steps|
    decreases |steps|
  {
    hide Recover, Read;
    if steps != [] {
      assert OwnerStep(steps[0], b);
      OwnerSteps(Exec1(h, steps[0]), steps[1..], b);
    }
  }

  lemma {:induction false} DropIsOwner(s: Owners, b: nat, uid: nat, i: nat)
    ensures forall j :: 0 <= j < |DropSteps(s, b, uid, i)| ==> OwnerStep(DropSteps(s, b, uid, i)[j], b)
    decreases OWNERS - i
  {
    if i < OWNERS {
      if s[i] == uid { DropIsOwner(s[i := 0], b, uid, i + 1); } else { DropIsOwner(s, b, uid, i + 1); }
    }
  }

  lemma OpeningLog(h: Heap, b: nat, uid: nat)
    requires h.log == [] && b < |h.mem|
    ensures Ready(Exec(h, OpeningSteps(h, b, uid)).log, |h.mem|, Miscounts(h.used))
    ensures Counts(Exec(h, OpeningSteps(h, b, uid)).log, h.used) && |OpeningSteps(h, b, uid)| <= 26
  {
    hide Exec, Read, DropSteps;
    var first := DropSteps(h.mem[b].uid, b, uid, 0);
    var w := Number(h.used - Payload(h, b));
    DropIsOwner(h.mem[b].uid, b, uid, 0);
    OwnerSteps(h, first, b);
    var d := Exec(h, first);
    RecordedStore(d, UsedAt, w);
    ExecAppend(h, first, [Records(UsedAt), Stores(UsedAt, w)]);
    UsedRecorded(d, w, b, |h.mem|);
  }

  lemma UsedRecorded(d: Heap, w: Word, b: nat, units: nat)
    requires OwnerLog(d.log, b) && |d.log| <= 24 && b < units
    ensures var log := Write(Push(d, UsedAt).h, UsedAt, w).log;
            Ready(log, units, Miscounts(d.used)) && Counts(log, d.used)
  {
    var r := Write(Push(d, UsedAt).h, UsedAt, w);
    assert r.log[|d.log|].addr == UsedAt;
  }

  lemma FreeStarts(h: Heap, s: Shape, b: nat, uid: nat)
    requires Wf(h, s) && Walk(h.mem, 0) == s.blocks && Owns(h, s, b, uid) && Good(h)
    ensures Starts(Exec(h, OpeningSteps(h, b, uid)), s, b, Miscounts(h.used))
  {
    hide Wf, Core, Sound, Walk, OpeningSteps, Exec, LiveBytes, Ready, Counts, Journaled, DropUid, UidCount,
      Release, Coalesced, Announce, Good;
    LogIsEmpty(h, s);
    Opened(h, s, b, uid);
    OpenedSound(h, s, b, uid);
    OpeningLog(h, b, uid);
    var w := Exec(h, OpeningSteps(h, b, uid));
    SoundTiled(w, s);
    GoodCounts(h);
    BytesTail(h.mem, w.mem, 0, 0);
  }

  /**
   * When the process dies in a tlsf_free that takes the last owner, recovery gives back a good heap exactly if the
   * crash came before the first store that is not journaled, and then it gives back the heap from before the call.
   */
  lemma CrashedFree(h: Heap, b: nat, uid: nat, i: nat)
    requires Good(h) && b in View(h) && View(h)[b].owners == {uid} && b < |h.mem|
    requires i <= |FreeActs(h, b, uid)|
    ensures var r := Recover(Run(h, FreeActs(h, b, uid)[..i]));
            && (Good(r) <==> i <= |OpeningSteps(h, b, uid)|)
            && (Good(r) ==> r == h)
    ensures var r := Free(h, b, uid).h; Commit(Run(h, FreeActs(h, b, uid))) == r && Recover(r) == r && Good(r)
  {
    hide Wf, Walk, Run, OpeningSteps, Exec, MergeActs, AnnounceSteps, Coalesced, Good, Recover, View, FreeInternal,
      Starts;
    var s := ShapeOf(h);
    ViewOwned(h, s, b, uid);
    FreeRuns(h, s, b, uid);
    FreeEnds(h, b, uid);
    FreeStarts(h, s, b, uid);
    var open := OpeningSteps(h, b, uid);
    var w := Exec(h, open);
    var m := Coalesced(w, b);
    var rest := MergeActs(w, b) + Acts(AnnounceSteps(m.h, m.b));
    assert FreeActs(h, b, uid) == Acts(open) + rest;
    if i <= |open| {
      OpeningRecovers(h, s, b, uid, i);
      assert FreeActs(h, b, uid)[..i] == Acts(open[..i]);
      RunExec(h, open[..i]);
    } else {
      MergeBad(w, s, b, Miscounts(h.used));
      var j := i - |open|;
      assert FreeActs(h, b, uid)[..i] == Acts(open) + rest[..j];
      RunAppend(h, Acts(open), rest[..j]);
      RunExec(h, open);
    }
  }

  lemma ViewOwned(h: Heap, s: Shape, b: nat, uid: nat)
    requires Wf(h, s) && InRange(h.mem, s.blocks) && View(h) == Live(h.mem, s.blocks) && b in View(h)
    requires View(h)[b].owners == {uid} && b < |h.mem|
    ensures Owns(h, s, b, uid) && uid != 0
  {
    hide Sound, Clients, Walk;
    OwnedOnce(h.mem[b].uid, uid);
  }

  lemma OpeningRecovers(h: Heap, s: Shape, b: nat, uid: nat, i: nat)
    requires Wf(h, s) && Owns(h, s, b, uid) && i <= |OpeningSteps(h, b, uid)|
    ensures Recover(Exec(h, OpeningSteps(h, b, uid)[..i])) == h
  {
    hide Wf, Core, OpeningSteps, Exec, Journaled, DropUid, UidCount, Release, Coalesced, Announce, Recover;
    LogIsEmpty(h, s);
    Opened(h, s, b, uid);
    OpeningLog(h, b, uid);
    JournaledPrefix(h, OpeningSteps(h, b, uid), i);
    CrashRecovers(h, OpeningSteps(h, b, uid)[..i]);
    FewRecords(h, OpeningSteps(h, b, uid)[..i]);
  }

  lemma FreeEnds(h: Heap, b: nat, uid: nat)
    requires Good(h) && b in View(h) && uid != 0 && FreeInternal(h, b, uid).err == Ok
    ensures Commit(FreeInternal(h, b, uid).h) == Free(h, b, uid).h
    ensures Recover(Free(h, b, uid).h) == Free(h, b, uid).h && Good(Free(h, b, uid).h)
  {
    hide Good, View, FreeInternal, Recover, Allowed, Carries, ExactlyBreaks;
    LegalFree(h, b, uid);
    StepCorrect(h, DoFree(b, uid));
    NothingLogged(Free(h, b, uid).h);
  }
}
