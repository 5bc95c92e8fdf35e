/** For which requests tlsf_malloc is safe in every heap that tlsf_create and legal steps can reach. */
module Reachable {
  import opened Mapping
  import opened Heap
  import opened Invariant
  import opened Search
  import opened Outcomes
  import opened Runs
  import opened Headers

  // ---------------------------------------------------------------- unaligned requests

  lemma UnalignedAbove(total: nat)
    requires MIN_BLOCK <= total && 64 * total < SPAN && !ClassAligned(total)
    ensures total > 16
  {
    hide Pow2, Log2;
    UnalignedIsLarge(total);
    LogBelow(64 * total, 10);
    PowSix();
    PowEight(6);
    assert Pow2(10) == 1024;
    MultipleOfPow(16, 6);
    if total == 16 { SixteenAligned(); }
  }

  lemma SixteenAligned()
    ensures ClassAligned(16)
  {
    PowSix();
    PowEight(6);
    LogIs(1024, 10);
    PowDouble(6);
  }

  /** Every block below 1088 bytes sits at the lower bound of its class; 17 units are the first that do not. */
  lemma FirstUnaligned(total: nat)
    requires MIN_BLOCK <= total <= 17
    ensures ClassAligned(total) <==> total < 17
  {
    if total < 17 {
      hide ClassAligned;
      if !ClassAligned(total) { UnalignedAbove(total); }
    } else {
      PowSix();
      PowEight(6);
      PowEight(7);
      LogIs(1088, 10);
      PowDouble(6);
    }
  }

  /** The largest heap is in the class of every unaligned request that is larger. */
  lemma TopClass(total: nat)
    requires MAX_HEAP < total <= MAX_UNITS && !ClassAligned(total)
    ensures Class(MAX_HEAP) == Class(total)
  {
    hide Class;
    TopPowers();
    if total == MAX_UNITS { LogIs(64 * total, 40); }
    ClassInUnits(MAX_HEAP, 39);
    ClassInUnits(total, 39);
  }

  lemma TopPowers()
    ensures Pow2(30) == 0x4000_0000 && Pow2(37) == 0x20_0000_0000 && Pow2(39) == MAX_POOL / 2
    ensures Pow2(40) == MAX_POOL && Pow2(41) == 2 * MAX_POOL
  {
    Span();
    PowDouble(40);
    PowDouble(39);
    PowDouble(38);
    PowDouble(37);
    PowEight(34);
    PowEight(31);
    PowDouble(30);
  }

  // ---------------------------------------------------------------- heaps that offer too little

  /** A heap whose only free block has the class of the request offers that block. */
  lemma OnlyChoice(h: Heap, s: Shape, total: nat, b: nat)
    requires Core(h, s) && MIN_BLOCK <= total && 64 * total < SPAN && s.free == {b} && b < |h.mem|
    requires Class(h.mem[b].size) == Class(total)
    ensures FindFor(h, total) == At(b)
  {
    hide Class;
    CoreSound(h, s);
    var fl := FirstLevel(64 * total);
    var sl := SecondLevel(64 * total, fl);
    ClassIs(total);
    FindLeast(h, s, NOBODY, fl, sl);
    HeadExists(h, s, NOBODY, b);
    HeadIsFree(h, s, NOBODY, FoundClass(h, fl, sl));
  }

  /** A whole heap in the class of the request, but smaller. */
  lemma WholeHeapTraps(n: nat, size: nat)
    requires MIN_BLOCK <= n < BlockUnits(size) <= MAX_UNITS && n < MAX_UNITS && Class(n) == Class(BlockUnits(size))
    ensures !Fits(Create(n), size)
  {
    hide Class, Core, Create, FindFor, BlockUnits;
    CreateWf(n);
    WfCore(Create(n), CREATED);
    OnlyChoice(Create(n), CREATED, BlockUnits(size), 0);
  }

  /** The end of a heap of 64 units, one unit short of the request. */
  lemma LastBlockTraps(size: nat)
    requires 4 <= BlockUnits(size) <= 60 && !ClassAligned(BlockUnits(size))
    ensures LegalRun(Create(64), [Take(65 - BlockUnits(size))])
    ensures !Fits(After(Create(64), [Take(65 - BlockUnits(size))]), size)
  {
    hide Class, ClassAligned, Wf, Apply, Create, FindFor, BlockUnits, Local, Legal, Take;
    var total := BlockUnits(size);
    var p := 65 - total;
    CreateWf(64);
    var t := TakeNext(Create(64), CREATED, 0, p);
    var r := Apply(Create(64), Take(p)).h;
    WfCore(r, t);
    UnalignedNeighbour(total);
    OnlyChoice(r, t, total, p);
    OneStep(Create(64), Take(p));
  }

  lemma OneStep(h: Heap, op: Op)
    ensures After(h, [op]) == Apply(h, op).h && (Legal(h, op) ==> LegalRun(h, [op]))
  {
    hide Apply, Legal;
  }

  // ---------------------------------------------------------------- the exact condition

  /** In no heap that a legal run reaches does the request get a block that is too small. */
  ghost predicate AlwaysFits(size: nat) {
    forall n: nat, ops: seq<Op> {:trigger After(Create(n), ops)} ::
      MIN_HEAP <= n <= MAX_HEAP && LegalRun(Create(n), ops) ==> Fits(After(Create(n), ops), size)
  }

  /** A request is safe in every reachable heap exactly when its block size is the lower bound of its class. */
  lemma AlwaysFitsExactly(size: nat)
    ensures AlwaysFits(size) <==> ClassAligned(BlockUnits(size)) || BlockUnits(size) > MAX_UNITS
  {
    hide Wf, Fits, BlockUnits, ClassAligned, Apply, Legal, Create, After, LegalRun, AllowedRun, NeverLoosens;
    if ClassAligned(BlockUnits(size)) || BlockUnits(size) > MAX_UNITS {
      forall n: nat, ops: seq<Op> | MIN_HEAP <= n <= MAX_HEAP && LegalRun(Create(n), ops)
        ensures Fits(After(Create(n), ops), size)
      {
        FreshRunCorrect(n, ops);
        var s :| Wf(After(Create(n), ops), s);
        AlignedFits(After(Create(n), ops), s, size);
      }
    } else {
      NotAlways(size);
    }
  }

  lemma NotAlways(size: nat)
    requires BlockUnits(size) <= MAX_UNITS && !ClassAligned(BlockUnits(size))
    ensures !AlwaysFits(size)
  {
    hide Fits, BlockUnits, ClassAligned, Class, Apply, Legal, Create, After, LegalRun, Take;
    var total := BlockUnits(size);
    UnitsPositive(size);
    UnalignedAbove(total);
    UnalignedNeighbour(total);
    if total <= MIN_HEAP {
      LastBlockTraps(size);
      Refutes(64, [Take(65 - total)], size);
    } else {
      var n := if total <= MAX_HEAP then total - 1 else MAX_HEAP;
      if total > MAX_HEAP { TopClass(total); }
      WholeHeapTraps(n, size);
      NoSteps(Create(n));
      Refutes(n, [], size);
    }
  }

  lemma NoSteps(h: Heap)
    ensures After(h, []) == h && LegalRun(h, [])
  {
  }

  lemma Refutes(n: nat, ops: seq<Op>, size: nat)
    requires MIN_HEAP <= n <= MAX_HEAP && LegalRun(Create(n), ops) && !Fits(After(Create(n), ops), size)
    ensures !AlwaysFits(size)
  {
    hide Fits, After, Create, LegalRun;
  }
}
