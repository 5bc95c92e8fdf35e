/** A run in which a plain free leaves two adjacent free blocks: the announcement was lost before. */
module Unannounced {
  import opened Mapping
  import opened Heap
  import opened Invariant
  import opened MallocProof
  import opened FreeProof
  import opened ReallocProof
  import opened Search
  import opened Outcomes
  import opened Blocks
  import opened Runs
  import opened Headers

  /** Four blocks; the first is cut beside a freed one, and freeing 24 then merges both ways. */
  function Action(i: nat): Op {
    match i
    case 0 => Take(20)
    case 1 => Take(4)
    case 2 => Take(4)
    case 3 => Take(4)
    case 4 => DoFree(20, UID)
    case 5 => DoRealloc(0, 64 * 9, UID)
    case 6 => DoFree(28, UID)
    case 7 => DoFree(24, UID)
    case 8 => Take(44)
    case _ => DoFree(20, UID)
  }

  // ---------------------------------------------------------------- the run

  /** The heap after the first i steps. */
  function Stage(i: nat): Heap {
    if i == 0 then Create(64) else Apply(Stage(i - 1), Action(i - 1)).h
  }

  lemma Next(i: nat)
    ensures Stage(i + 1) == Apply(Stage(i), Action(i)).h
  {
  }

  lemma StartStands()
    ensures Stands(Stage(0), CREATED, {0}, {0}) && Head(Stage(0), 0, 64, true)
  {
    CreateWf(64);
  }

  lemma OneTaken() returns (s: Shape)
    ensures Legal(Stage(0), Action(0))
    ensures Stands(Stage(1), s, {0, 20}, {20}) && Head(Stage(1), 0, 20, false) && Head(Stage(1), 20, 44, true)
  {
    hide Wf, Apply, Legal, Head, Stage;
    StartStands();
    s := TakeNext(Stage(0), CREATED, 0, 20);
    Next(0);
    assert {0} + {20} == {0, 20};
  }

  lemma TwoTaken() returns (s: Shape)
    ensures Legal(Stage(1), Action(1))
    ensures Stands(Stage(2), s, {0, 20, 24}, {24})
    ensures Head(Stage(2), 0, 20, false) && Head(Stage(2), 20, 4, false) && Head(Stage(2), 24, 40, true)
  {
    hide Wf, Apply, Legal, Head, Stage, Local;
    var t := OneTaken();
    s := TakeNext(Stage(1), t, 20, 4);
    Next(1);
    HeadStays(Stage(1), Stage(2), t.blocks, 20, 64, 0, 20, false);
    assert {0, 20} + {24} == {0, 20, 24};
  }

  lemma ThreeTaken() returns (s: Shape)
    ensures Legal(Stage(2), Action(2))
    ensures Stands(Stage(3), s, {0, 20, 24, 28}, {28})
    ensures Head(Stage(3), 0, 20, false) && Head(Stage(3), 20, 4, false) && Head(Stage(3), 24, 4, false)
    ensures Head(Stage(3), 28, 36, true)
  {
    hide Wf, Apply, Legal, Head, Stage, Local;
    var t := TwoTaken();
    s := TakeNext(Stage(2), t, 24, 4);
    Next(2);
    HeadStays(Stage(2), Stage(3), t.blocks, 24, 64, 0, 20, false);
    HeadStays(Stage(2), Stage(3), t.blocks, 24, 64, 20, 4, false);
    assert {0, 20, 24} + {28} == {0, 20, 24, 28};
  }

  /** Four blocks of 20, 4, 4 and 4 units, and the rest. */
  lemma FourTaken() returns (s: Shape)
    ensures Legal(Stage(3), Action(3))
    ensures Stands(Stage(4), s, {0, 20, 24, 28, 32}, {32})
    ensures Head(Stage(4), 0, 20, false) && Head(Stage(4), 20, 4, false) && Head(Stage(4), 24, 4, false)
    ensures Head(Stage(4), 28, 4, false) && Head(Stage(4), 32, 32, true)
  {
    hide Wf, Apply, Legal, Head, Stage, Local;
    var t := ThreeTaken();
    s := TakeNext(Stage(3), t, 28, 4);
    Next(3);
    HeadStays(Stage(3), Stage(4), t.blocks, 28, 64, 0, 20, false);
    HeadStays(Stage(3), Stage(4), t.blocks, 28, 64, 20, 4, false);
    HeadStays(Stage(3), Stage(4), t.blocks, 28, 64, 24, 4, false);
    assert {0, 20, 24, 28} + {32} == {0, 20, 24, 28, 32};
  }

  /** Block 20 comes back between two live blocks. */
  lemma FirstGiven() returns (s: Shape)
    ensures Legal(Stage(4), Action(4))
    ensures Stands(Stage(5), s, {0, 20, 24, 28, 32}, {20, 32})
    ensures Head(Stage(5), 0, 20, false) && Head(Stage(5), 20, 4, true) && Head(Stage(5), 24, 4, false)
    ensures Head(Stage(5), 28, 4, false) && Head(Stage(5), 32, 32, true) && Stage(5).mem[24].prevFree
  {
    hide Wf, Apply, Legal, Local, Sound, Stage;
    var t := FourTaken();
    Next(4);
    s := GiveNext(Stage(4), t, 0, 20, 4);
    HeadStays(Stage(4), Stage(5), t.blocks, 20, 24, 0, 20, false);
    HeadStays(Stage(4), Stage(5), t.blocks, 20, 24, 24, 4, false);
    HeadStays(Stage(4), Stage(5), t.blocks, 20, 24, 28, 4, false);
    HeadStays(Stage(4), Stage(5), t.blocks, 20, 24, 32, 32, true);
  }

  /** Block 0 is cut beside it. */
  lemma Cut() returns (s: Shape)
    ensures Legal(Stage(5), Action(5))
    ensures Stands(Stage(6), s, {0, 10, 20, 24, 28, 32}, {10, 20, 32})
    ensures Head(Stage(6), 0, 10, false) && Head(Stage(6), 10, 10, true) && Head(Stage(6), 20, 4, true)
    ensures Head(Stage(6), 24, 4, false) && Head(Stage(6), 28, 4, false) && Head(Stage(6), 32, 32, true)
    ensures Stage(6).mem[24].prevFree
  {
    hide Wf, Apply, Legal, Local, Stage;
    var t := FirstGiven();
    Next(5);
    CutStep(Stage(5), t, 0, 20, 10);
    s := AfterSplit(t, 0, 10);
    LocalSize(Stage(5).mem, Stage(6).mem, t.blocks, 0, 20);
    HeadStays(Stage(5), Stage(6), t.blocks, 0, 20, 20, 4, true);
    HeadStays(Stage(5), Stage(6), t.blocks, 0, 20, 24, 4, false);
    HeadStays(Stage(5), Stage(6), t.blocks, 0, 20, 28, 4, false);
    HeadStays(Stage(5), Stage(6), t.blocks, 0, 20, 32, 32, true);
  }

  /** Block 28 merges with the rest behind it. */
  lemma SecondGiven() returns (s: Shape)
    ensures Legal(Stage(6), Action(6))
    ensures Stands(Stage(7), s, {0, 10, 20, 24, 28}, {10, 20, 28})
    ensures Head(Stage(7), 0, 10, false) && Head(Stage(7), 10, 10, true) && Head(Stage(7), 20, 4, true)
    ensures Head(Stage(7), 24, 4, false) && Head(Stage(7), 28, 36, true) && Stage(7).mem[24].prevFree
  {
    hide Wf, Apply, Legal, Local, Sound, Stage;
    var t := Cut();
    Next(6);
    s := GiveNext(Stage(6), t, 24, 28, 4);
    HeadStays(Stage(6), Stage(7), t.blocks, 28, 64, 0, 10, false);
    HeadStays(Stage(6), Stage(7), t.blocks, 28, 64, 10, 10, true);
    HeadStays(Stage(6), Stage(7), t.blocks, 28, 64, 20, 4, true);
    HeadStays(Stage(6), Stage(7), t.blocks, 28, 64, 24, 4, false);
  }

  /** Block 24 merges both ways, which clears the flag that told of block 10. */
  lemma ThirdGiven() returns (s: Shape)
    ensures Legal(Stage(7), Action(7))
    ensures Stands(Stage(8), s, {0, 10, 20}, {10, 20})
    ensures Head(Stage(8), 0, 10, false) && Head(Stage(8), 10, 10, true) && Head(Stage(8), 20, 44, true)
    ensures !Stage(8).mem[20].prevFree
  {
    hide Wf, Apply, Legal, Local, Sound, Stage;
    var t := SecondGiven();
    Next(7);
    s := GiveNext(Stage(7), t, 20, 24, 4);
    HeadStays(Stage(7), Stage(8), t.blocks, 20, 64, 0, 10, false);
    HeadStays(Stage(7), Stage(8), t.blocks, 20, 64, 10, 10, true);
  }

  lemma AlignedAt(k: nat, level: nat)
    requires 4 <= level < FLI_MAX && Pow2(level) <= 64 * k < Pow2(level + 1) && 64 * k % Pow2(level - 3) == 0
    ensures ClassAligned(k)
  {
    LogIs(64 * k, level);
  }

  lemma RunAligned(k: nat)
    requires k == 4 || k == 10 || k == 20 || k == 44
    ensures ClassAligned(k)
  {
    hide ClassAligned;
    Powers();
    AlignedAt(k, if k == 4 then 8 else if k == 10 then 9 else if k == 20 then 10 else 11);
  }

  lemma Powers()
    ensures Pow2(5) == 32 && Pow2(6) == 64 && Pow2(7) == 128 && Pow2(8) == 256
    ensures Pow2(9) == 512 && Pow2(10) == 1024 && Pow2(11) == 2048 && Pow2(12) == 4096
  {
  }

  /** A request of 44 units takes block 20 whole: no two free blocks are adjacent now. */
  lemma LastTaken() returns (s: Shape)
    ensures Legal(Stage(8), Action(8))
    ensures Stands(Stage(9), s, {0, 10, 20}, {10})
    ensures Head(Stage(9), 0, 10, false) && Head(Stage(9), 10, 10, true) && Head(Stage(9), 20, 44, false)
    ensures !Stage(9).mem[20].prevFree
  {
    hide Wf, Apply, Legal, Local, Sound, FindFor, Class, ClassAligned, AfterMalloc, Stage;
    var t := ThirdGiven();
    RunAligned(44);
    WfCore(Stage(8), t);
    SearchSpec(Stage(8), t, 44);
    Next(8);
    TakeStep(Stage(8), t, 44, 20, 44);
    s := AfterMalloc(t, 20, 44, 44);
    ShapeAfterTake(t, 20, 44, 44);
    LocalSize(Stage(8).mem, Stage(9).mem, t.blocks, 20, 64);
    HeadStays(Stage(8), Stage(9), t.blocks, 20, 64, 0, 10, false);
    HeadStays(Stage(8), Stage(9), t.blocks, 20, 64, 10, 10, true);
  }

  // ---------------------------------------------------------------- what the run shows

  const RUN: seq<Op> := seq(10, i requires 0 <= i < 10 => Action(i))

  lemma {:induction false} StageIsAfter(i: nat, k: nat)
    requires i <= k <= 10
    ensures After(Stage(i), RUN[i..k]) == Stage(k)
    decreases k - i
  {
    hide Apply, Stage;
    if i < k {
      Next(i);
      assert RUN[i..k][0] == Action(i) && RUN[i..k][1..] == RUN[i + 1..k];
      StageIsAfter(i + 1, k);
    }
  }

  lemma {:induction false} StagesLegal(i: nat)
    requires i <= 10 && forall j :: i <= j < 10 ==> Legal(Stage(j), Action(j))
    ensures LegalRun(Stage(i), RUN[i..])
    decreases 10 - i
  {
    hide Apply, Stage, Legal;
    if i < 10 {
      Next(i);
      assert RUN[i..][0] == Action(i) && RUN[i..][1..] == RUN[i + 1..];
      StagesLegal(i + 1);
    }
  }

  lemma RulesOfThree(h: Heap)
    requires |h.mem| == 64 && Head(h, 0, 10, false) && Head(h, 10, 10, true) && Head(h, 20, 44, false)
    requires !h.mem[20].prevFree
    ensures Ruled(h.mem, {0, 10, 20}, Separated) && !Ruled(h.mem, {0, 10, 20}, Announced)
    ensures LeftFree(h.mem, {0, 10, 20}, 20)
  {
    var blocks: set<nat> := {0, 10, 20};
    assert Obeys(h.mem, 0, Separated) && Obeys(h.mem, 10, Separated) && Obeys(h.mem, 20, Separated);
    assert 10 in blocks && !Obeys(h.mem, 10, Announced);
    NotRuled(h.mem, blocks, 10, Announced);
  }

  /** After nine steps free blocks are separated, but block 10 is not announced to block 20. */
  lemma NinthStage()
    ensures Good(Stage(9)) && Legal(Stage(9), Action(9))
    ensures Keeps(Stage(9), Separated) && !Keeps(Stage(9), Announced)
    ensures Separated in Breaks(Stage(9), Action(9))
  {
    hide Apply, Stage, Sound, Wf, Keeps, Head, LeftFree, Breaks, Legal, Walk, Ruled;
    var s := LastTaken();
    var h := Stage(9);
    WfWalk(h, s);
    RulesOfThree(h);
    KeepsBy(h, Separated);
    KeepsBy(h, Announced);
    GiveStep(h, s, 20, 44);
    LastBreaks(h, s);
  }

  lemma KeepsBy(h: Heap, rule: Rule)
    ensures Keeps(h, rule) <==> Ruled(h.mem, Walk(h.mem, 0), rule)
  {
  }

  lemma LastBreaks(h: Heap, s: Shape)
    requires Wf(h, s) && InRange(h.mem, s.blocks) && Walk(h.mem, 0) == s.blocks && 20 in s.blocks
    requires Head(h, 20, 44, false) && !h.mem[20].prevFree && LeftFree(h.mem, s.blocks, 20)
    ensures Separated in Breaks(h, DoFree(20, UID))
  {
    hide Wf, Walk, LeftFree;
    WfWalk(h, s);
    IsLive(h, s, 20);
    assert BreaksRule(h, s.blocks, 20, Separated);
  }

  lemma AllLegal(i: nat)
    requires i < 10
    ensures Legal(Stage(i), Action(i))
  {
    hide Apply, Stage, Legal, Keeps, Breaks, Head, Stands;
    var _ := OneTaken();
    var _ := TwoTaken();
    var _ := ThreeTaken();
    var _ := FourTaken();
    var _ := FirstGiven();
    var _ := Cut();
    var _ := SecondGiven();
    var _ := ThirdGiven();
    var _ := LastTaken();
    NinthStage();
  }

  lemma RequestsAligned(i: nat)
    requires i < 10
    ensures Action(i).DoMalloc? || Action(i).DoRealloc? ==> ClassAligned(BlockUnits(Action(i).size))
  {
    hide ClassAligned;
    UnitsOf(4);
    UnitsOf(10);
    UnitsOf(20);
    UnitsOf(44);
    RunAligned(4);
    RunAligned(10);
    RunAligned(20);
    RunAligned(44);
  }

  /**
   * A legal run of class-aligned requests whose last step, a plain free, leaves two adjacent free
   * blocks although there were none before it.
   */
  lemma PlainFreeScatters()
    ensures LegalRun(Create(64), RUN) && Good(After(Create(64), RUN[..9])) && RUN[9].DoFree?
    ensures Keeps(After(Create(64), RUN[..9]), Separated) && !Keeps(After(Create(64), RUN), Separated)
    ensures !Keeps(After(Create(64), RUN[..9]), Announced)
    ensures forall i :: 0 <= i < |RUN| && (RUN[i].DoMalloc? || RUN[i].DoRealloc?) ==>
      ClassAligned(BlockUnits(RUN[i].size))
  {
    hide Apply, Stage, Legal, Keeps, Breaks, Walk, Action, ClassAligned, BlockUnits, After, LegalRun;
    forall i | 0 <= i < 10 ensures Legal(Stage(i), Action(i)) {
      AllLegal(i);
    }
    forall i | 0 <= i < 10
      ensures Action(i).DoMalloc? || Action(i).DoRealloc? ==> ClassAligned(BlockUnits(Action(i).size))
    {
      RequestsAligned(i);
    }
    StagesLegal(0);
    StageIsAfter(0, 9);
    StageIsAfter(0, 10);
    assert RUN[0..] == RUN && RUN[0..9] == RUN[..9] && RUN[0..10] == RUN;
    NinthBreaks();
  }

  lemma NinthBreaks()
    ensures Stage(0) == Create(64) && Action(9).DoFree?
    ensures Good(Stage(9)) && Keeps(Stage(9), Separated) && !Keeps(Stage(9), Announced)
    ensures !Keeps(Stage(10), Separated)
  {
    FirstAndLast();
    hide Apply, Keeps, Breaks, Legal, Good, Stage, Action;
    NinthStage();
    Next(9);
    BreaksIt(Stage(9), Action(9), Separated);
  }

  lemma FirstAndLast()
    ensures Stage(0) == Create(64) && Action(9) == DoFree(20, UID)
  {
    hide Create, Apply;
  }

  lemma BreaksIt(h: Heap, op: Op, rule: Rule)
    requires Good(h) && Legal(h, op) && Keeps(h, rule) && rule in Breaks(h, op)
    ensures !Keeps(Apply(h, op).h, rule)
  {
    hide Good, Legal, Keeps, Breaks, Apply, Allowed, Carries, OutOfRoom;
    StepCorrect(h, op);
  }
}
