/** The last owner's tlsf_free as the list of its single stores and log records, in the order of the code. */
module FreeSteps {
  import opened Mapping
  import opened Heap
  import opened Invariant
  import opened OwnerSlots
  import opened FreeProof
  import opened UndoLog
  import opened MallocSteps

  /** Writing the size of a header, with its flags as they are. */
  function SizeAct(l: Line, u: nat, size: nat): Act {
    Do(Stores(FlagsAt(u), Flags(size, l.free, l.prevFree)))
  }

  /** coalesce_prev. */
  function BackActs(h: Heap, b: nat): seq<Act> {
    if !MergesBack(h, b) then [] else
      var p := b - Get(h, b).prevSize;
      UnlinkActs(h, p, Class(Get(h, p).size))
      + [SizeAct(Get(h, p), p, AddUnits(Get(h, p).size, Get(h, b).size))]
  }

  /** The header stores of coalesce_next. */
  function SwallowActs(h: Heap, b: nat, more: nat): seq<Act> {
    var size := AddUnits(Get(h, b).size, more);
    [SizeAct(Get(h, b), b, size), Do(Stores(FlagsAt(b), Flags(size, Get(h, b).free, false)))]
    + TellActs(h, AddUnits(b, size), size)
  }

  /** coalesce_next, if the block behind is free. */
  function FrontActs(h: Heap, b: nat): seq<Act> {
    var next := NextOf(h, b);
    if next >= |h.mem| || !Get(h, next).free then [] else
      var k := Class(Get(h, next).size);
      UnlinkActs(h, next, k) + SwallowActs(RemoveFree(h, next, k), b, Get(h, next).size)
  }

  /** mark_block_free. */
  function MarkActs(h: Heap, b: nat): seq<Act> {
    [Do(Stores(FlagsAt(b), Flags(Get(h, b).size, true, Get(h, b).prevFree))),
     Do(Stores(PrevSizeAt(SubUnits(NextOf(h, b), 1)), Number(Get(h, b).size)))]
  }

  /** Both merges, the mark and the insertion. */
  function MergeActs(h: Heap, b: nat): seq<Act> {
    var m := CoalescePrev(h, b);
    var f := CoalesceFree(m.h, m.b);
    var g := MarkFree(f, m.b);
    BackActs(h, b) + FrontActs(m.h, m.b) + MarkActs(f, m.b) + InsertActs(g, m.b, Class(Get(g, m.b).size))
  }

  /** The journaled announcement to the block behind. */
  function AnnounceSteps(h: Heap, b: nat): seq<Step> {
    var after := NextOf(h, b);
    if after >= |h.mem| then [] else
      [Records(FlagsAt(after)), Stores(FlagsAt(after), Flags(Get(h, after).size, Get(h, after).free, true))]
      + [Records(PrevSizeAt(after)), Stores(PrevSizeAt(after), Number(Get(h, b).size))]
  }

  /** The journaled beginning: the owner slots and used_bytes. */
  function OpeningSteps(h: Heap, b: nat, uid: nat): seq<Step> {
    DropSteps(Get(h, b).uid, b, uid, 0) + [Records(UsedAt), Stores(UsedAt, Number(h.used - Payload(h, b)))]
  }

  /** tlsf_free_internal on a block with one owner. */
  function FreeActs(h: Heap, b: nat, uid: nat): seq<Act> {
    var g := Exec(h, OpeningSteps(h, b, uid));
    var m := Coalesced(g, b);
    Acts(OpeningSteps(h, b, uid)) + MergeActs(g, b) + Acts(AnnounceSteps(m.h, m.b))
  }

  // ---------------------------------------------------------------- the stores are the operation

  lemma BackRuns(h: Heap, b: nat)
    requires MergesBack(h, b) ==> Get(h, b - Get(h, b).prevSize).prev != At(b - Get(h, b).prevSize)
    requires MergesBack(h, b) ==> Get(h, b - Get(h, b).prevSize).next != At(b - Get(h, b).prevSize)
    ensures Run(h, BackActs(h, b)) == CoalescePrev(h, b).h
  {
    hide Run, Run1, UnlinkActs, RemoveFree, Class;
    if MergesBack(h, b) {
      var p := b - Get(h, b).prevSize;
      var k := Class(Get(h, p).size);
      UnlinkRuns(h, p, k);
      var g := RemoveFree(h, p, k);
      SameFlags(h, p, k, p);
      SameFlags(h, p, k, b);
      RunAppend(h, UnlinkActs(h, p, k), [SizeAct(Get(h, p), p, AddUnits(Get(h, p).size, Get(h, b).size))]);
      WordRuns(g, p, AddUnits(Get(h, p).size, Get(h, b).size));
    } else {
      RunNothing(h);
    }
  }

  /** List operations touch links only. */
  lemma SameFlags(h: Heap, x: nat, k: nat, u: nat)
    requires k < CLASSES
    ensures |RemoveFree(h, x, k).mem| == |h.mem|
    ensures var l := Get(RemoveFree(h, x, k), u); l == Get(h, u).(prev := l.prev, next := l.next)
  {
  }

  lemma SwallowRuns(h: Heap, b: nat, more: nat)
    requires b < |h.mem| && AddUnits(b, AddUnits(Get(h, b).size, more)) != b
    ensures Run(h, SwallowActs(h, b, more)) == Swallow(h, b, more)
  {
    hide Run, Run1, TellActs;
    var size := AddUnits(Get(h, b).size, more);
    var after := AddUnits(b, size);
    var c := Do(Stores(FlagsAt(b), Flags(size, Get(h, b).free, false)));
    var first := [SizeAct(Get(h, b), b, size), c];
    UnitRuns(h, first, b);
    TouchedTwo(Get(h, b), first[0], c);
    var g := Put(h, b, Get(h, b).(size := size, prevFree := false));
    assert Run(h, first) == g;
    RunAppend(h, first, TellActs(h, after, size));
    TellEffect(h, g, after, size);
    Elsewhere(h, b, after, Get(h, b).(size := size, prevFree := false));
  }

  lemma Elsewhere(h: Heap, b: nat, u: nat, l: Line)
    requires u != b
    ensures Get(Put(h, b, l), u) == Get(h, u)
    ensures b < |h.mem| ==> Get(Put(h, b, l), b) == l
  {
  }

  lemma FrontRuns(h: Heap, b: nat)
    requires b < |h.mem| < MAX_UNITS && 0 < h.mem[b].size && b + h.mem[b].size <= |h.mem|
    requires var next := b + h.mem[b].size;
      next < |h.mem| && h.mem[next].free ==> h.mem[next].prev != At(next) && next + h.mem[next].size <= |h.mem|
    ensures Run(h, FrontActs(h, b)) == CoalesceFree(h, b)
  {
    hide Run, Run1, UnlinkActs, RemoveFree, Class, SwallowActs, Swallow;
    var next := b + h.mem[b].size;
    if next < |h.mem| && h.mem[next].free {
      var k, more := Class(h.mem[next].size), h.mem[next].size;
      UnlinkRuns(h, next, k);
      var g := RemoveFree(h, next, k);
      SameFlags(h, next, k, b);
      SwallowRuns(g, b, more);
      RunAppend(h, UnlinkActs(h, next, k), SwallowActs(g, b, more));
    } else {
      RunNothing(h);
    }
  }

  lemma MarkRuns(h: Heap, b: nat)
    requires b < |h.mem|
    ensures Run(h, MarkActs(h, b)) == MarkFree(h, b)
  {
    hide Run, Run1;
    var l := h.mem[b].(free := true);
    var first := [Do(Stores(FlagsAt(b), Flags(h.mem[b].size, true, h.mem[b].prevFree)))];
    var last := SubUnits(NextOf(h, b), 1);
    var second := [Do(Stores(PrevSizeAt(last), Number(h.mem[b].size)))];
    UnitRuns(h, first, b);
    TouchedTwo(h.mem[b], first[0], first[0]);
    RunAppend(h, first, second);
    WordRuns(Put(h, b, l), last, h.mem[b].size);
    assert MarkActs(h, b) == first + second;
  }

  lemma MergeRuns(h: Heap, s: Shape, b: nat)
    requires Sound(h, s, NOBODY) && FlagsAgree(h.mem, s) && b in s.blocks && b !in s.free && b < |h.mem|
    ensures Run(h, MergeActs(h, b)) == Coalesced(h, b).h
  {
    hide Run, Class, Sound, CoalescePrev, CoalesceFree, MarkFree, InsertFree, BackActs, FrontActs, MarkActs, InsertActs,
      Local, AfterBack, AfterForward;
    var m := CoalescePrev(h, b);
    var f := CoalesceFree(m.h, m.b);
    var g := MarkFree(f, m.b);
    var k := Class(Get(g, m.b).size);
    SoundFacts(h, s, NOBODY, b);
    if MergesBack(h, b) { BackReady(h, s, b); }
    BackRuns(h, b);
    FrontReady(h, s, b);
    FrontRuns(m.h, m.b);
    MergedSound(h, s, b);
    MarkRuns(f, m.b);
    InsertRuns(g, m.b, k);
    RunAppend(h, BackActs(h, b), FrontActs(m.h, m.b));
    RunAppend(h, BackActs(h, b) + FrontActs(m.h, m.b), MarkActs(f, m.b));
    RunAppend(h, BackActs(h, b) + FrontActs(m.h, m.b) + MarkActs(f, m.b), InsertActs(g, m.b, k));
  }

  lemma BackReady(h: Heap, s: Shape, b: nat)
    requires Sound(h, s, NOBODY) && FlagsAgree(h.mem, s) && b in s.blocks && b < |h.mem| && MergesBack(h, b)
    ensures var p := b - h.mem[b].prevSize; h.mem[p].prev != At(p) && h.mem[p].next != At(p)
  {
    hide Sound;
    LeftNeighbour(h, s, b);
    NotOwnNeighbour(h, s, NOBODY, b - h.mem[b].prevSize);
  }

  lemma FrontReady(h: Heap, s: Shape, b: nat)
    requires Sound(h, s, NOBODY) && FlagsAgree(h.mem, s) && b in s.blocks && b !in s.free && b < |h.mem|
    ensures var m := CoalescePrev(h, b); var x := Lo(h, b); var next := b + h.mem[b].size;
            && m.b == x < |m.h.mem| && |m.h.mem| == |h.mem| < MAX_UNITS
            && 0 < m.h.mem[x].size && x + m.h.mem[x].size == next <= |h.mem|
            && (next < |h.mem| && m.h.mem[next].free ==>
                  m.h.mem[next].prev != At(next) && next + m.h.mem[next].size <= |h.mem|)
  {
    hide Sound, CoalescePrev, Local;
    var next := b + h.mem[b].size;
    SoundFacts(h, s, NOBODY, b);
    BackStep(h, s, b);
    SoundFacts(CoalescePrev(h, b).h, AfterBack(h, s, b), next, Lo(h, b));
    EdgeIsBlock(h, s, NOBODY, b);
    if next < |h.mem| && h.mem[next].free {
      SoundFacts(h, s, NOBODY, next);
      NotOwnNeighbour(CoalescePrev(h, b).h, AfterBack(h, s, b), next, next);
    }
  }

  /** The block's owner goes, used_bytes falls, and nothing else changes. */
  lemma OpeningExec(h: Heap, b: nat, uid: nat)
    requires b < |h.mem| && |h.log| <= 10 && DropUid(h, b, uid, 0).Go?
    requires var d := DropUid(h, b, uid, 0).h;
      d == h.(mem := h.mem[b := h.mem[b].(uid := Get(d, b).uid)], log := d.log) && |d.log| < BUL_ENTRIES
    ensures var d := DropUid(h, b, uid, 0).h; var g := Push(d, UsedAt).h;
            && Exec(h, OpeningSteps(h, b, uid)) == g.(used := g.used - Payload(g, b))
            && Journaled(h, OpeningSteps(h, b, uid))
  {
    hide Exec, DropUid, DropSteps, Recover, Read, Journaled;
    var d := DropUid(h, b, uid, 0).h;
    var first := DropSteps(h.mem[b].uid, b, uid, 0);
    var w := Number(h.used - Payload(h, b));
    DropProgram(h, b, uid, 0);
    RecordedStore(d, UsedAt, w);
    ExecAppend(h, first, [Records(UsedAt), Stores(UsedAt, w)]);
    JournaledAppend(h, first, [Records(UsedAt), Stores(UsedAt, w)]);
  }

  lemma {:induction false} JournaledAppend(h: Heap, a: seq<Step>, c: seq<Step>)
    requires Journaled(h, a) && Journaled(Exec(h, a), c)
    ensures Journaled(h, a + c)
    decreases |a|
  {
    hide Exec1;
    if a == [] {
      assert a + c == c;
    } else {
      assert (a + c)[1..] == a[1..] + c;
      JournaledAppend(Exec1(h, a[0]), a[1..], c);
    }
  }

  lemma AnnounceExec(h: Heap, b: nat)
    requires b < |h.mem| && |h.log| <= 40
    requires NextOf(h, b) != b
    ensures Exec(h, AnnounceSteps(h, b)) == Announce(h, b).h
  {
    hide Exec, Read, Recover;
    var after := NextOf(h, b);
    if after < |h.mem| {
      var w := Flags(h.mem[after].size, h.mem[after].free, true);
      var first := [Records(FlagsAt(after)), Stores(FlagsAt(after), w)];
      var second := [Records(PrevSizeAt(after)), Stores(PrevSizeAt(after), Number(h.mem[b].size))];
      RecordedStore(h, FlagsAt(after), w);
      var g := Exec(h, first);
      RecordedStore(g, PrevSizeAt(after), Number(h.mem[b].size));
      ExecAppend(h, first, second);
    } else {
      ExecNothing(h);
    }
  }

  /** A live block with the only owner uid, in a heap whose transaction has recorded little so far. */
  ghost predicate Owns(h: Heap, s: Shape, b: nat, uid: nat) {
    && Core(h, s) && |h.log| <= 10 && b in s.blocks && b < |h.mem| && !h.mem[b].free
    && OwnerSet(h.mem[b].uid) == {uid}
  }

  /** The heap after the journaled beginning differs in the owner slots, used_bytes and the log. */
  lemma Opened(h: Heap, s: Shape, b: nat, uid: nat)
    requires Owns(h, s, b, uid)
    ensures var g, d := Exec(h, OpeningSteps(h, b, uid)), DropUid(h, b, uid, 0);
            && Journaled(h, OpeningSteps(h, b, uid))
            && |g.mem| == |h.mem| && g.mem == h.mem[b := h.mem[b].(uid := g.mem[b].uid)]
            && g == h.(mem := g.mem, used := h.used - 64 * (h.mem[b].size - 1), log := g.log)
            && |g.log| <= |h.log| + 2
            && d.Go? && UidCount(Get(d.h, b).uid, 0) == 0
            && Release(d.h, b) == Announce(Coalesced(g, b).h, Coalesced(g, b).b)
  {
    hide Sound, DropUid, Dropped, UidFind, UidCount, Occurs, Coalesced, Announce, OpeningSteps, Exec, Journaled, Read,
      Recover;
    assert ClientOk(h.mem, s.free, b);
    var u := h.mem[b].uid;
    DropUidEffect(h, b, uid, 0);
    OwnedOnce(u, uid);
    OccursOnce(u, uid, 0);
    DroppedOwners(u, uid);
    CountIsSize(Dropped(u, uid, 0));
    OpeningExec(h, b, uid);
  }

  lemma OwnedOnce(s: Owners, uid: nat)
    requires OwnerSet(s) == {uid}
    ensures uid != 0
  {
    assert uid in OwnerSet(s);
  }

  lemma OpenedSound(h: Heap, s: Shape, b: nat, uid: nat)
    requires Owns(h, s, b, uid)
    ensures var g := Exec(h, OpeningSteps(h, b, uid));
            Sound(g, s, NOBODY) && FlagsAgree(g.mem, s) && b !in s.free && FlagsAgree(h.mem, s) && Sound(h, s, NOBODY)
  {
    hide Core, Owned, OpeningSteps, Exec, Release, DropUid, UidCount, Journaled, Coalesced, Announce, Sound, FlagsAgree;
    Opened(h, s, b, uid);
    CoreFlags(h, s);
    OwnersEdited(h, Exec(h, OpeningSteps(h, b, uid)), s, b);
  }

  lemma CoreFlags(h: Heap, s: Shape)
    requires Core(h, s)
    ensures Sound(h, s, NOBODY) && FlagsAgree(h.mem, s)
  {
    SoundRange(h, s, NOBODY);
    hide Sound, Clients;
    ClientFlags(h.mem, s);
  }

  /** Only the owners of b, used_bytes and the log differ. */
  lemma OwnersEdited(h: Heap, g: Heap, s: Shape, b: nat)
    requires Sound(h, s, NOBODY) && FlagsAgree(h.mem, s) && b in s.blocks && b < |h.mem| == |g.mem| && !h.mem[b].free
    requires g.mem == h.mem[b := h.mem[b].(uid := g.mem[b].uid)]
    requires g == h.(mem := g.mem, used := g.used, log := g.log)
    ensures Sound(g, s, NOBODY) && FlagsAgree(g.mem, s) && b !in s.free
  {
    hide Sound;
    var e := g.(used := h.used);
    EditSound(h, e, s, b);
    BookkeepingSound(e, g, s);
  }

  /** The list of stores is tlsf_free_internal for a block with one owner. */
  lemma FreeRuns(h: Heap, s: Shape, b: nat, uid: nat)
    requires Owns(h, s, b, uid)
    ensures Run(h, FreeActs(h, b, uid)) == FreeInternal(h, b, uid).h && FreeInternal(h, b, uid).err == Ok
  {
    hide Core, Sound, Run, Coalesced, Announce, DropUid, UidFind, UidCount, OpeningSteps, AnnounceSteps, MergeActs,
      Exec, Release, Journaled, Freed, FreeInternal, Local;
    Opened(h, s, b, uid);
    OpenedSound(h, s, b, uid);
    var open := OpeningSteps(h, b, uid);
    var g := Exec(h, open);
    var m := Coalesced(g, b);
    RunExec(h, open);
    MergeRuns(g, s, b);
    CoalescedSound(g, s, b);
    AnnounceReady(g, s, b);
    AnnounceExec(m.h, m.b);
    RunExec(m.h, AnnounceSteps(m.h, m.b));
    RunAppend(h, Acts(open), MergeActs(g, b));
    RunAppend(h, Acts(open) + MergeActs(g, b), Acts(AnnounceSteps(m.h, m.b)));
    ReleasedWhole(h, s, b, uid);
  }

  lemma AnnounceReady(g: Heap, s: Shape, b: nat)
    requires Sound(g, s, NOBODY) && FlagsAgree(g.mem, s) && b in s.blocks && b !in s.free && b < |g.mem|
    requires |g.log| <= 12
    ensures var m := Coalesced(g, b);
            && m.b < |m.h.mem| && |m.h.log| <= 40 && NextOf(m.h, m.b) != m.b && Announce(m.h, m.b).Go?
  {
    hide Sound, Coalesced, Local, Freed, Recover, Read;
    SoundFacts(g, s, NOBODY, b);
    CoalescedSound(g, s, b);
  }

  lemma ReleasedWhole(h: Heap, s: Shape, b: nat, uid: nat)
    requires Owns(h, s, b, uid)
    ensures FreeInternal(h, b, uid) == Done(Release(DropUid(h, b, uid, 0).h, b).h, Ok)
  {
    hide Core, DropUid, Release, UidFind, UidCount, OpeningSteps, Exec, Journaled, Coalesced, Sound, Local;
    Opened(h, s, b, uid);
    OpenedSound(h, s, b, uid);
    SoundFacts(h, s, NOBODY, b);
    OwnedOnce(h.mem[b].uid, uid);
    FindIsMember(h.mem[b].uid, uid);
    AnnounceReady(Exec(h, OpeningSteps(h, b, uid)), s, b);
  }
}
