/** tlsf_link, tlsf_free_dc, tlsf_setdc and tlsf_free as updates of the client's map. */
module Ownership {
  import opened Heap
  import opened FreeLists
  import opened Invariant
  import opened Abstraction
  import opened OwnerSlots
  import opened FreeProof
  import opened ReallocProof

  /** Blocks live before and after an operation, with the payload units both sizes cover. */
  ghost function Common(m: map<nat, Entry>, n: map<nat, Entry>): map<nat, Entry> {
    map b | b in m && b in n :: n[b].(size := Min(m[b].size, n[b].size))
  }

  /**
   * What an operation promises: the invariant, the client's new map m, untouched payloads, and that
   * of the rules of a coalesced heap that held exactly the `broken` ones are lost.
   */
  ghost predicate Updates(h: Heap, r: Heap, s: Shape, t: Shape, m: map<nat, Entry>, broken: set<Rule>)
    requires InRange(h.mem, s.blocks)
  {
    && Wf(r, t) && InRange(r.mem, t.blocks)
    && Live(r.mem, t.blocks) == m
    && RulesBroken(h.mem, r.mem, s.blocks, t.blocks, broken)
    && PayloadKept(h.mem, r.mem, Common(Live(h.mem, s.blocks), m))
  }

  lemma UpdatesBy(h: Heap, r: Heap, s: Shape, t: Shape, m: map<nat, Entry>, kept: map<nat, Entry>,
                  broken: set<Rule>)
    requires InRange(h.mem, s.blocks) && Wf(r, t) && InRange(r.mem, t.blocks) && Live(r.mem, t.blocks) == m
    requires RulesBroken(h.mem, r.mem, s.blocks, t.blocks, broken)
    requires PayloadKept(h.mem, r.mem, kept)
    requires forall b :: b in m && b in Live(h.mem, s.blocks) ==>
      b in kept && Min(Live(h.mem, s.blocks)[b].size, m[b].size) <= kept[b].size
    ensures Updates(h, r, s, t, m, broken)
  {
    hide Wf, Live, RulesBroken;
    KeptFewer(h.mem, r.mem, kept, Common(Live(h.mem, s.blocks), m));
  }

  lemma UpdatesNothing(h: Heap, s: Shape)
    requires Wf(h, s) && InRange(h.mem, s.blocks)
    ensures Updates(h, h, s, s, Live(h.mem, s.blocks), {})
  {
    hide Core;
    SameMemory(h.mem, Live(h.mem, s.blocks));
    UpdatesBy(h, h, s, s, Live(h.mem, s.blocks), Live(h.mem, s.blocks), {});
  }

  lemma SameMemory(a: seq<Line>, m: map<nat, Entry>)
    ensures PayloadKept(a, a, m)
  {
  }

  lemma CoreCommit(h: Heap, t: Shape)
    requires Core(h, t)
    ensures Wf(Commit(h), t)
  {
    hide Sound, Clients;
    CommitSound(h, t);
  }

  /** Committing an edit of the header of b that keeps its size. */
  lemma UpdatesEntry(h: Heap, g: Heap, s: Shape, b: nat)
    requires Wf(h, s) && InRange(h.mem, s.blocks) && b in s.blocks && b < |h.mem| == |g.mem|
    requires g == h.(mem := h.mem[b := g.mem[b]], log := g.log) && SameStructure(h.mem[b], g.mem[b])
    requires !h.mem[b].free && Owned(g.mem[b])
    ensures b in Live(h.mem, s.blocks)
    ensures Updates(h, Commit(g), s, s, Live(h.mem, s.blocks)[b := EntryOf(g.mem[b])], {})
  {
    hide Core, Owned, RulesBroken, PayloadKept, Live;
    EditWf(h, g, s, b);
    CoreCommit(g, s);
    IsLive(h, s, b);
    UpdatesBy(h, Commit(g), s, s, Live(h.mem, s.blocks)[b := EntryOf(g.mem[b])], Live(h.mem, s.blocks), {});
  }

  lemma LiveOwned(h: Heap, s: Shape, b: nat)
    requires Core(h, s) && InRange(h.mem, s.blocks) && b in s.blocks
    ensures h.mem[b].sig == MAGIC48
    ensures !h.mem[b].free ==> Owned(h.mem[b]) && Distinct(h.mem[b].uid)
    ensures h.mem[b].free <==> b !in Live(h.mem, s.blocks)
    ensures h.mem[b].free ==> CheckBlock(h, b) == NotAllocated
    ensures !h.mem[b].free ==> CheckBlock(h, b) == Ok
  {
    hide Lists, Bits, PrevSizes;
    assert ClientOk(h.mem, s.free, b);
  }

  // ---------------------------------------------------------------- link

  function LinkSpec(m: map<nat, Entry>, b: nat, uid: nat): map<nat, Entry> {
    if uid != 0 && b in m && uid !in m[b].owners && |m[b].owners| < 12
    then m[b := m[b].(owners := m[b].owners + {uid})] else m
  }

  function LinkErr(m: map<nat, Entry>, b: nat, uid: nat): Err {
    if uid == 0 then UidInvalid
    else if b !in m then NotAllocated
    else if uid in m[b].owners then UidDuplicate
    else if |m[b].owners| == 12 then UidFull
    else Ok
  }

  lemma OwnersBound(l: Line)
    requires Distinct(l.uid)
    ensures |OwnerSet(l.uid)| <= 12
  {
    CountIsSize(l.uid);
    CountFull(l.uid, 0);
  }

  /** tlsf_link adds one distinct owner, up to twelve, and fails without effect otherwise. */
  lemma LinkCorrect(h: Heap, s: Shape, b: nat, uid: nat)
    requires Wf(h, s) && InRange(h.mem, s.blocks) && b in s.blocks
    ensures Link(h, b, uid).err == LinkErr(Live(h.mem, s.blocks), b, uid)
    ensures Updates(h, Link(h, b, uid).h, s, s, LinkSpec(Live(h.mem, s.blocks), b, uid), {})
  {
    hide Core, Updates, Owned, Recover, Read, UidFind, Live, CheckBlock, OwnerSet;
    LiveOwned(h, s, b);
    UpdatesNothing(h, s);
    if uid != 0 && !h.mem[b].free {
      var u := h.mem[b].uid;
      IsLive(h, s, b);
      FindIsMember(u, uid);
      FullIsTwelve(u);
      OwnersBound(h.mem[b]);
      var slot := UidFind(u, 0, 0);
      SlotSpec(u, 0, 0);
      if uid !in OwnerSet(u) && slot < OWNERS {
        AddedOwner(u, uid, slot);
        var g := h.(mem := h.mem[b := h.mem[b].(uid := u[slot := uid])], log := Push(h, UidAt(b, slot / 4)).h.log);
        OwnedWith(h.mem[b], g.mem[b]);
        UpdatesEntry(h, g, s, b);
        assert Link(h, b, uid) == Done(Commit(g), Ok);
      }
    }
  }

  lemma OwnedWith(l: Line, m: Line)
    requires Distinct(m.uid) && OwnerSet(m.uid) != {}
    ensures Owned(m)
  {
  }

  // ---------------------------------------------------------------- free

  function FreeSpec(m: map<nat, Entry>, b: nat, uid: nat): map<nat, Entry> {
    if uid != 0 && b in m && uid in m[b].owners then DropOwner(m, b, uid) else m
  }

  function FreeErr(m: map<nat, Entry>, b: nat, uid: nat): Err {
    if uid == 0 then UidInvalid
    else if b !in m then NotAllocated
    else if uid !in m[b].owners then UidNotFound
    else Ok
  }

  lemma FreeRefused(h: Heap, s: Shape, b: nat, uid: nat)
    requires Wf(h, s) && InRange(h.mem, s.blocks) && b in s.blocks
    requires FreeErr(Live(h.mem, s.blocks), b, uid) != Ok
    ensures Free(h, b, uid) == Done(h, FreeErr(Live(h.mem, s.blocks), b, uid))
  {
    hide Core, Owned, UidFind, Live, CheckBlock, OwnerSet, Release, DropUid, UidCount;
    LiveOwned(h, s, b);
    if uid != 0 && !h.mem[b].free {
      IsLive(h, s, b);
      FindIsMember(h.mem[b].uid, uid);
    }
  }

  /** The rules that a call of tlsf_free breaks: those that giving the block back breaks. */
  ghost function BrokenByFree(h: Heap, blocks: set<nat>, b: nat, uid: nat): set<Rule>
    requires InRange(h.mem, blocks) && b < |h.mem|
  {
    if FreeErr(Live(h.mem, blocks), b, uid) == Ok then FreeBreaks(h, blocks, b, uid) else {}
  }

  /** tlsf_free removes one owner; the block returns to the heap exactly with its last owner. */
  lemma FreeRefines(h: Heap, s: Shape, b: nat, uid: nat)
    requires Wf(h, s) && InRange(h.mem, s.blocks) && b in s.blocks
    ensures Free(h, b, uid).err == FreeErr(Live(h.mem, s.blocks), b, uid)
    ensures exists t :: Updates(h, Free(h, b, uid).h, s, t, FreeSpec(Live(h.mem, s.blocks), b, uid),
                                BrokenByFree(h, s.blocks, b, uid))
  {
    hide Core, Updates, Owned, Live, CheckBlock, OwnerSet, FreeInternal, AfterFree, PayloadKept, RulesBroken,
      FreeBreaks;
    LiveOwned(h, s, b);
    var m, broken := Live(h.mem, s.blocks), BrokenByFree(h, s.blocks, b, uid);
    if FreeErr(m, b, uid) == Ok {
      IsLive(h, s, b);
      FreeCorrect(h, s, b, uid);
      var d := FreeInternal(h, b, uid).h;
      CoreCommit(d, AfterFree(h, s, b, uid));
      UpdatesBy(h, Commit(d), s, AfterFree(h, s, b, uid), FreeSpec(m, b, uid), FreeSpec(m, b, uid), broken);
      assert Updates(h, Free(h, b, uid).h, s, AfterFree(h, s, b, uid), FreeSpec(m, b, uid), broken);
    } else {
      FreeRefused(h, s, b, uid);
      UpdatesNothing(h, s);
      assert FreeSpec(m, b, uid) == m;
      assert Updates(h, Free(h, b, uid).h, s, s, FreeSpec(m, b, uid), broken);
    }
  }

  // ---------------------------------------------------------------- free_dc, setdc, cleardc

  function FreeDcSpec(m: map<nat, Entry>, b: nat, uid: nat): map<nat, Entry> {
    if uid != 0 && b in m && uid in m[b].owners then
      (if |m[b].owners| == 1 then m[b := m[b].(dc := true)]
       else m[b := m[b].(owners := m[b].owners - {uid})])
    else m
  }

  /** tlsf_free_dc marks a block with one owner and only detaches the caller from a shared one. */
  lemma FreeDcCorrect(h: Heap, s: Shape, b: nat, uid: nat)
    requires Wf(h, s) && InRange(h.mem, s.blocks) && b in s.blocks
    ensures FreeDc(h, b, uid).err == FreeErr(Live(h.mem, s.blocks), b, uid)
    ensures Updates(h, FreeDc(h, b, uid).h, s, s, FreeDcSpec(Live(h.mem, s.blocks), b, uid), {})
  {
    hide Core, Updates, Owned, Recover, Read, UidFind, Live, CheckBlock, OwnerSet, DropUid, UidCount, Dropped;
    LiveOwned(h, s, b);
    UpdatesNothing(h, s);
    if uid != 0 && !h.mem[b].free {
      var u := h.mem[b].uid;
      IsLive(h, s, b);
      FindIsMember(u, uid);
      CountIsSize(u);
      if uid in OwnerSet(u) {
        if |OwnerSet(u)| == 1 {
          var g := h.(mem := h.mem[b := h.mem[b].(dc := true)], log := Push(h, SigAt(b)).h.log);
          SameOwners(h.mem[b], g.mem[b]);
          UpdatesEntry(h, g, s, b);
          assert FreeDc(h, b, uid) == Done(Commit(g), Ok);
        } else {
          DropUidEffect(h, b, uid, 0);
          DroppedOwners(u, uid);
          var g := DropUid(h, b, uid, 0).h;
          SharedStays(OwnerSet(u), uid);
          OwnedWith(h.mem[b], g.mem[b]);
          UpdatesEntry(h, g, s, b);
        }
      }
    }
  }

  lemma SharedStays(s: set<nat>, x: nat)
    requires x in s && |s| != 1
    ensures s - {x} != {}
  {
    var rest := s - {x};
    assert s == rest + {x};
  }

  lemma SameOwners(l: Line, m: Line)
    requires Owned(l) && m.uid == l.uid
    ensures Owned(m)
  {
  }

  function SetDcSpec(m: map<nat, Entry>, b: nat, dc: bool): map<nat, Entry> {
    if b in m then m[b := m[b].(dc := dc)] else m
  }

  /** tlsf_setdc and tlsf_cleardc change the flag of a live block and nothing else. */
  lemma SetDcCorrect(h: Heap, s: Shape, b: nat, dc: bool)
    requires Wf(h, s) && InRange(h.mem, s.blocks) && b in s.blocks
    ensures SetDc(h, b, dc).err == (if b in Live(h.mem, s.blocks) then Ok else NotAllocated)
    ensures Updates(h, SetDc(h, b, dc).h, s, s, SetDcSpec(Live(h.mem, s.blocks), b, dc), {})
  {
    hide Core, Updates, Owned, Live, CheckBlock, OwnerSet;
    LiveOwned(h, s, b);
    UpdatesNothing(h, s);
    if !h.mem[b].free {
      IsLive(h, s, b);
      var g := h.(mem := h.mem[b := h.mem[b].(dc := dc)]);
      SameOwners(h.mem[b], g.mem[b]);
      UpdatesEntry(h, g, s, b);
      assert SetDc(h, b, dc) == Done(Commit(g), Ok);
    }
  }
}
