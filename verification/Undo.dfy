/** The undo log: what a crash at any moment followed by recovery leaves behind. */
module UndoLog {
  import opened Arith
  import opened Mapping
  import opened Heap
  import opened FreeLists
  import opened Invariant
  import opened Blocks

  /** The steps between which a process can die. `Undoes(k)` is a recovery that dies after k records. */
  datatype Step = Records(a: Addr) | Stores(a: Addr, w: Word) | Undoes(k: nat)

  /** Recovery that undoes the top k records but dies before it resets stack_top. */
  function UndoTop(h: Heap, k: nat): (r: Heap)
    requires k <= |h.log|
    ensures r.log == h.log && |r.mem| == |h.mem|
    decreases k
  {
    if k == 0 then h else
      var g := UndoTop(h, k - 1);
      Write(g, h.log[|h.log| - k].addr, h.log[|h.log| - k].was)
  }

  function Exec1(h: Heap, s: Step): Heap {
    match s
    case Records(a) => Push(h, a).h
    case Stores(a, w) => Write(h, a, w)
    case Undoes(k) => UndoTop(h, Min(k, |h.log|))
  }

  function Exec(h: Heap, steps: seq<Step>): Heap
    decreases |steps|
  {
    if steps == [] then h else Exec(Exec1(h, steps[0]), steps[1..])
  }

  ghost predicate InLog(log: seq<Rec>, a: Addr) {
    exists i :: 0 <= i < |log| && log[i].addr == a
  }

  /** Push-then-write: a store hits a recorded word, and a push records a word of the pool and finds room. */
  ghost predicate Journaled(h: Heap, steps: seq<Step>)
    decreases |steps|
  {
    steps == [] ||
    (&& (steps[0].Stores? ==> InLog(h.log, steps[0].a))
     && (steps[0].Records? ==> |h.log| < BUL_ENTRIES && InPool(h, steps[0].a))
     && Journaled(Exec1(h, steps[0]), steps[1..]))
  }

  // ---------------------------------------------------------------- words

  /** Words that Read can return at an address. */
  predicate Typed(a: Addr, w: Word) {
    match a
    case UsedAt => w.Number?
    case FlagsAt(_) => w.Flags?
    case SigAt(_) => w.Sig?
    case UidAt(_, k) => k < 3 ==> w.Uids?
    case PrevSizeAt(_) => w.Number? && w.n >= 0
  }

  lemma ReadTyped(h: Heap, a: Addr)
    ensures Typed(a, Read(h, a))
  {
  }

  /** The part of a write that concerns one unit. */
  function Edit(l: Line, a: Addr, w: Word): Line {
    match (a, w)
    case (FlagsAt(_), Flags(s, f, p)) => l.(size := s, free := f, prevFree := p)
    case (SigAt(_), Sig(s, d, t)) => l.(sig := s, dc := d, dtype := t)
    case (UidAt(_, k), Uids(x, y, z, v)) =>
      if k < 3 then l.(uid := l.uid[4 * k := x][4 * k + 1 := y][4 * k + 2 := z][4 * k + 3 := v]) else l
    case (PrevSizeAt(_), Number(n)) => if n >= 0 then l.(prevSize := n) else l
    case _ => l
  }

  lemma WriteIsEdit(h: Heap, a: Addr, w: Word)
    ensures a != UsedAt ==> Write(h, a, w) == Put(h, a.u, Edit(Get(h, a.u), a, w))
  {
    if a != UsedAt { PutSame(h, a.u); }
  }

  lemma PutSame(h: Heap, u: nat)
    ensures Put(h, u, Get(h, u)) == h
  {
    if u < |h.mem| { assert h.mem[u := h.mem[u]] == h.mem; }
  }

  lemma PutTwice(h: Heap, u: nat, l: Line, m: Line)
    ensures Put(Put(h, u, l), u, m) == Put(h, u, m)
    ensures u < |h.mem| ==> Get(Put(h, u, l), u) == l
  {
  }

  lemma PutSwap(h: Heap, u: nat, l: Line, v: nat, m: Line)
    requires u != v
    ensures Put(Put(h, u, l), v, m) == Put(Put(h, v, m), u, l)
    ensures Get(Put(h, u, l), v) == Get(h, v)
  {
    if u < |h.mem| && v < |h.mem| { assert h.mem[u := l][v := m] == h.mem[v := m][u := l]; }
  }

  lemma EditBack(h: Heap, a: Addr)
    requires a != UsedAt
    ensures Edit(Get(h, a.u), a, Read(h, a)) == Get(h, a.u)
  {
    var l := Get(h, a.u);
    if a.UidAt? && a.k < 3 {
      var s, k := l.uid, 4 * a.k;
      assert s[k := s[k]][k + 1 := s[k + 1]][k + 2 := s[k + 2]][k + 3 := s[k + 3]] == s;
    }
  }

  lemma EditOver(l: Line, a: Addr, w: Word, v: Word)
    requires Typed(a, v)
    ensures Edit(Edit(l, a, w), a, v) == Edit(l, a, v)
  {
    if a.UidAt? && a.k < 3 && w.Uids? {
      assert Edit(Edit(l, a, w), a, v).uid == Edit(l, a, v).uid;
    }
  }

  lemma EditSwap(l: Line, a: Addr, w: Word, c: Addr, v: Word)
    requires a != c && a != UsedAt && c != UsedAt && a.u == c.u
    ensures Edit(Edit(l, a, w), c, v) == Edit(Edit(l, c, v), a, w)
  {
    if a.UidAt? && c.UidAt? {
      assert Edit(Edit(l, a, w), c, v).uid == Edit(Edit(l, c, v), a, w).uid;
    }
  }

  lemma WriteBack(h: Heap, a: Addr)
    ensures Write(h, a, Read(h, a)) == h
  {
    WriteIsEdit(h, a, Read(h, a));
    if a != UsedAt {
      EditBack(h, a);
      PutSame(h, a.u);
    }
  }

  lemma Overwrite(h: Heap, a: Addr, w: Word, v: Word)
    requires Typed(a, v)
    ensures Write(Write(h, a, w), a, v) == Write(h, a, v)
  {
    if a != UsedAt {
      hide Write, Edit, Put, Get;
      var l := Get(h, a.u);
      WriteIsEdit(h, a, w);
      WriteIsEdit(h, a, v);
      WriteIsEdit(Write(h, a, w), a, v);
      EditOver(l, a, w, v);
      PutTwice(h, a.u, Edit(l, a, w), Edit(l, a, v));
      Beyond(h, a.u, Edit(l, a, w));
    }
  }

  /** A write beyond the heap changes nothing. */
  lemma Beyond(h: Heap, u: nat, l: Line)
    ensures u >= |h.mem| ==> Put(h, u, l) == h
  {
  }

  lemma Commute(h: Heap, a: Addr, w: Word, c: Addr, v: Word)
    requires a != c
    ensures Write(Write(h, a, w), c, v) == Write(Write(h, c, v), a, w)
  {
    if a != UsedAt && c != UsedAt {
      CommuteUnits(h, a, w, c, v);
    }
  }

  lemma CommuteUnits(h: Heap, a: Addr, w: Word, c: Addr, v: Word)
    requires a != c && a != UsedAt && c != UsedAt
    ensures Write(Write(h, a, w), c, v) == Write(Write(h, c, v), a, w)
  {
    hide Write, Edit, Put, Get;
    var l, m := Get(h, a.u), Get(h, c.u);
    WriteIsEdit(h, a, w);
    WriteIsEdit(h, c, v);
    WriteIsEdit(Write(h, a, w), c, v);
    WriteIsEdit(Write(h, c, v), a, w);
    if a.u == c.u {
      EditSwap(l, a, w, c, v);
      PutTwice(h, a.u, Edit(l, a, w), Edit(Edit(l, a, w), c, v));
      PutTwice(h, a.u, Edit(l, c, v), Edit(Edit(l, c, v), a, w));
      Beyond(h, a.u, Edit(l, a, w));
      Beyond(h, a.u, Edit(l, c, v));
      Beyond(h, a.u, Edit(l, c, v));
    } else {
      PutSwap(h, a.u, Edit(l, a, w), c.u, Edit(m, c, v));
      PutSwap(h, c.u, Edit(m, c, v), a.u, Edit(l, a, w));
    }
  }

  ghost predicate TypedLog(h: Heap) {
    forall i :: 0 <= i < |h.log| ==> Typed(h.log[i].addr, h.log[i].was) && InPool(h, h.log[i].addr)
  }

  // ---------------------------------------------------------------- undoing

  /** Whatever a recorded word holds, undoing the record makes it irrelevant. */
  lemma {:induction false} UndoAbsorbs(h: Heap, n: nat, a: Addr, w: Word)
    requires n <= |h.log| && TypedLog(h) && InLog(h.log[..n], a)
    ensures Undo(Write(h, a, w), n) == Undo(h, n)
    decreases n
  {
    hide Write;
    var c, v := h.log[n - 1].addr, h.log[n - 1].was;
    if c == a {
      Overwrite(h, a, w, v);
    } else {
      Commute(h, a, w, c, v);
      var i :| 0 <= i < n && h.log[..n][i].addr == a;
      assert h.log[..n - 1][i].addr == a;
      UndoAbsorbs(Write(h, c, v), n - 1, a, w);
    }
  }

  lemma {:induction false} UndoShorter(h: Heap, g: Heap, n: nat)
    requires n <= |h.log| && n <= |g.log| && h.log[..n] == g.log[..n] && h.(log := []) == g.(log := [])
    requires TypedLog(h)
    ensures Undo(h, n).(log := []) == Undo(g, n).(log := [])
    decreases n
  {
    if n > 0 {
      var a, v := h.log[n - 1].addr, h.log[n - 1].was;
      assert g.log[n - 1] == g.log[..n][n - 1] == h.log[..n][n - 1] == h.log[n - 1];
      assert h.log[..n - 1] == h.log[..n][..n - 1] == g.log[..n][..n - 1] == g.log[..n - 1];
      WriteSame(h, g, a, v);
      UndoShorter(Write(h, a, v), Write(g, a, v), n - 1);
    }
  }

  lemma WriteSame(h: Heap, g: Heap, a: Addr, v: Word)
    requires h.(log := []) == g.(log := [])
    ensures Write(h, a, v).(log := []) == Write(g, a, v).(log := [])
  {
  }

  /** The memory that undoing the whole log gives. */
  function Origin(h: Heap): Heap {
    Undo(h, |h.log|).(log := [])
  }

  lemma RecordKeepsOrigin(h: Heap, a: Addr)
    requires |h.log| < BUL_ENTRIES && TypedLog(h) && InPool(h, a)
    ensures Origin(Push(h, a).h) == Origin(h) && TypedLog(Push(h, a).h)
  {
    hide Write, Read;
    ReadTyped(h, a);
    var g := h.(log := h.log + [Rec(a, Read(h, a))]);
    SameRead(h, g, a);
    WriteBack(g, a);
    UndoShorter(g, h, |h.log|);
  }

  lemma SameRead(h: Heap, g: Heap, a: Addr)
    requires g == h.(log := g.log)
    ensures Read(g, a) == Read(h, a)
  {
  }

  lemma {:induction false} UndoTopKeepsOrigin(h: Heap, k: nat)
    requires k <= |h.log| && TypedLog(h)
    ensures Origin(UndoTop(h, k)) == Origin(h)
  {
    hide Write;
    if k > 0 {
      UndoTopKeepsOrigin(h, k - 1);
      var g := UndoTop(h, k - 1);
      var rec := h.log[|h.log| - k];
      assert g.log[..|g.log|] == g.log;
      UndoAbsorbs(g, |g.log|, rec.addr, rec.was);
    }
  }

  lemma {:induction false} StepsKeepOrigin(h: Heap, steps: seq<Step>)
    requires TypedLog(h) && Journaled(h, steps)
    ensures Origin(Exec(h, steps)) == Origin(h) && TypedLog(Exec(h, steps))
    decreases |steps|
  {
    hide Write, Read, Undo, Origin, Recover;
    if steps != [] {
      match steps[0] {
        case Records(a) =>
          RecordKeepsOrigin(h, a);
        case Stores(a, w) =>
          assert h.log[..|h.log|] == h.log;
          UndoAbsorbs(h, |h.log|, a, w);
          OriginBy(h, Write(h, a, w));
        case Undoes(k) =>
          UndoTopKeepsOrigin(h, Min(k, |h.log|));
      }
      StepsKeepOrigin(Exec1(h, steps[0]), steps[1..]);
    }
  }

  lemma OriginBy(h: Heap, g: Heap)
    requires |h.log| == |g.log| && Undo(h, |h.log|) == Undo(g, |g.log|)
    ensures Origin(h) == Origin(g)
  {
  }

  /**
   * A crash anywhere in a push-then-write transaction, with any number of recoveries that crash
   * in turn: a completed recovery gives back the heap at transaction start exactly when fewer than
   * 64 words were recorded. With 64 it does nothing.
   */
  lemma CrashRecovers(h: Heap, steps: seq<Step>)
    requires h.log == [] && Journaled(h, steps)
    ensures Recover(Exec(h, steps)) == h <==> |Exec(h, steps).log| < BUL_ENTRIES
    ensures |Exec(h, steps).log| >= BUL_ENTRIES ==> Recover(Exec(h, steps)) == Exec(h, steps)
  {
    StepsKeepOrigin(h, steps);
    hide Undo, Exec, Journaled;
    var r := Exec(h, steps);
    assert Origin(h) == h by { NoRecords(h); }
    if r.log == [] { NoRecords(r); }
  }

  lemma NoRecords(h: Heap)
    requires h.log == []
    ensures Origin(h) == h
  {
  }

  // ---------------------------------------------------------------- operations as programs

  /** A crash between any two steps of `steps`, or after the commit, then recovery: before or after. */
  ghost predicate CrashAtomic(h: Heap, steps: seq<Step>, after: Heap) {
    && Commit(Exec(h, steps)) == after
    && (forall i :: 0 <= i <= |steps| ==> Recover(Exec(h, steps[..i])) == h)
    && Recover(after) == after
  }

  lemma {:induction false} JournaledPrefix(h: Heap, steps: seq<Step>, i: nat)
    requires Journaled(h, steps) && i <= |steps|
    ensures Journaled(h, steps[..i])
    decreases i
  {
    hide Exec1;
    if i > 0 {
      JournaledPrefix(Exec1(h, steps[0]), steps[1..], i - 1);
      assert steps[..i][1..] == steps[1..][..i - 1];
    }
  }

  lemma {:induction false} FewRecords(h: Heap, steps: seq<Step>)
    requires |h.log| + |steps| < BUL_ENTRIES
    ensures |Exec(h, steps).log| <= |h.log| + |steps|
    decreases |steps|
  {
    hide Write, Recover;
    if steps != [] { FewRecords(Exec1(h, steps[0]), steps[1..]); }
  }

  lemma JournaledIsAtomic(h: Heap, steps: seq<Step>)
    requires h.log == [] && Journaled(h, steps) && |steps| < BUL_ENTRIES
    ensures CrashAtomic(h, steps, Commit(Exec(h, steps)))
  {
    hide Exec, Journaled;
    forall i | 0 <= i <= |steps| ensures Recover(Exec(h, steps[..i])) == h {
      JournaledPrefix(h, steps, i);
      CrashRecovers(h, steps[..i]);
      FewRecords(h, steps[..i]);
    }
  }

  /** The uid word that holds slot i. */
  function UidWord(s: Owners, i: nat): Word
    requires i < OWNERS
  {
    var k := i / 4;
    Uids(s[4 * k], s[4 * k + 1], s[4 * k + 2], s[4 * k + 3])
  }

  /** Writing one 16-bit slot, journaled as its 64-bit word. */
  function SlotSteps(s: Owners, b: nat, i: nat, uid: nat): seq<Step>
    requires i < OWNERS
  {
    [Records(UidAt(b, i / 4)), Stores(UidAt(b, i / 4), UidWord(s[i := uid], i))]
  }

  /** The clearing loop of tlsf_free_internal and tlsf_free_dc. */
  function DropSteps(s: Owners, b: nat, uid: nat, i: nat): (r: seq<Step>)
    ensures |r| <= 2 * OWNERS
    ensures i <= OWNERS ==> |r| <= 2 * (OWNERS - i)
    decreases OWNERS - i
  {
    if i >= OWNERS then []
    else if s[i] == uid then SlotSteps(s, b, i, 0) + DropSteps(s[i := 0], b, uid, i + 1)
    else DropSteps(s, b, uid, i + 1)
  }

  lemma SlotEffect(h: Heap, b: nat, i: nat, uid: nat)
    requires i < OWNERS && |h.log| < BUL_ENTRIES
    ensures var s := Get(h, b).uid; var h1 := Push(h, UidAt(b, i / 4)).h;
            && Exec1(h, SlotSteps(s, b, i, uid)[0]) == h1
            && Exec1(h1, SlotSteps(s, b, i, uid)[1]) == Put(h1, b, Get(h1, b).(uid := s[i := uid]))
            && InLog(h1.log, UidAt(b, i / 4))
  {
    var h1 := Push(h, UidAt(b, i / 4)).h;
    assert h1.log[|h.log|].addr == UidAt(b, i / 4);
    WordEffect(Get(h, b).uid, i, uid);
  }

  lemma WordEffect(s: Owners, i: nat, uid: nat)
    requires i < OWNERS
    ensures var k := i / 4; var w := UidWord(s[i := uid], i);
            && k < 3
            && s[4 * k := w.a][4 * k + 1 := w.b][4 * k + 2 := w.c][4 * k + 3 := w.d] == s[i := uid]
  {
  }

  lemma ExecTwo(h: Heap, x: Step, y: Step, rest: seq<Step>)
    ensures Exec(h, [x, y] + rest) == Exec(Exec1(Exec1(h, x), y), rest)
    ensures (x.Stores? ==> InLog(h.log, x.a)) && (x.Records? ==> |h.log| < BUL_ENTRIES && InPool(h, x.a))
         && (y.Stores? ==> InLog(Exec1(h, x).log, y.a))
         && (y.Records? ==> |Exec1(h, x).log| < BUL_ENTRIES && InPool(Exec1(h, x), y.a))
         && Journaled(Exec1(Exec1(h, x), y), rest)
      ==> Journaled(h, [x, y] + rest)
  {
    hide Exec1;
    var all := [x, y] + rest;
    assert all[1..] == [y] + rest;
    assert all[1..][1..] == rest;
    assert Exec(h, all) == Exec(Exec1(h, x), all[1..]);
  }

  lemma {:induction false} DropProgram(h: Heap, b: nat, uid: nat, i: nat)
    requires b < |h.mem| && i <= OWNERS && |h.log| + 12 - i < BUL_ENTRIES
    ensures var steps := DropSteps(Get(h, b).uid, b, uid, i);
            Journaled(h, steps) && DropUid(h, b, uid, i) == Go(Exec(h, steps))
    decreases OWNERS - i
  {
    hide Exec, Journaled, Recover, Read, Exec1, InLog;
    var s := Get(h, b).uid;
    if i == OWNERS {
      ExecNothing(h);
    } else if s[i] == uid {
      SlotEffect(h, b, i, 0);
      var h1 := Push(h, UidAt(b, i / 4)).h;
      var g := Put(h1, b, Get(h1, b).(uid := s[i := 0]));
      DropProgram(g, b, uid, i + 1);
      var st := SlotSteps(s, b, i, 0);
      ExecTwo(h, st[0], st[1], DropSteps(s[i := 0], b, uid, i + 1));
    } else {
      DropProgram(h, b, uid, i + 1);
    }
  }

  lemma ExecNothing(h: Heap)
    ensures Exec(h, []) == h && Journaled(h, [])
  {
  }

  /** tlsf_link that succeeds is crash-atomic. */
  lemma LinkAtomic(h: Heap, b: nat, uid: nat)
    requires h.log == [] && Link(h, b, uid).err == Ok
    ensures var slot := UidFind(Get(h, b).uid, 0, 0);
            slot < OWNERS && CrashAtomic(h, SlotSteps(Get(h, b).uid, b, slot, uid), Link(h, b, uid).h)
  {
    hide Exec, Journaled, Recover, Read, Exec1, InLog, CrashAtomic;
    var slot, s := UidFind(Get(h, b).uid, 0, 0), Get(h, b).uid;
    SlotEffect(h, b, slot, uid);
    var st := SlotSteps(s, b, slot, uid);
    var h1 := Push(h, UidAt(b, slot / 4)).h;
    var g := Put(h1, b, Get(h1, b).(uid := s[slot := uid]));
    ExecNothing(g);
    ExecTwo(h, st[0], st[1], []);
    assert st == [st[0], st[1]] + [];
    JournaledIsAtomic(h, st);
  }

  /** tlsf_free that leaves other owners is crash-atomic. */
  lemma SharedFreeAtomic(h: Heap, b: nat, uid: nat)
    requires h.log == [] && Free(h, b, uid).err == Ok && b < |h.mem|
    requires UidCount(Get(DropUid(h, b, uid, 0).h, b).uid, 0) > 0
    ensures CrashAtomic(h, DropSteps(Get(h, b).uid, b, uid, 0), Free(h, b, uid).h)
  {
    hide Exec, Journaled, CrashAtomic, Release, UidFind, DropUid, UidCount, CheckBlock;
    DropProgram(h, b, uid, 0);
    JournaledIsAtomic(h, DropSteps(Get(h, b).uid, b, uid, 0));
  }

  /** The steps of tlsf_free_dc: mark a block with one owner, or detach from a shared one. */
  function FreeDcSteps(l: Line, b: nat, uid: nat): seq<Step> {
    if UidCount(l.uid, 0) == 1 then [Records(SigAt(b)), Stores(SigAt(b), Sig(l.sig, true, l.dtype))]
    else DropSteps(l.uid, b, uid, 0)
  }

  /** tlsf_free_dc is crash-atomic. */
  lemma FreeDcAtomic(h: Heap, b: nat, uid: nat)
    requires h.log == [] && FreeDc(h, b, uid).err == Ok && b < |h.mem|
    ensures CrashAtomic(h, FreeDcSteps(Get(h, b), b, uid), FreeDc(h, b, uid).h)
  {
    hide Exec, Journaled, CrashAtomic, Recover, UidFind, DropUid, UidCount, CheckBlock, DropSteps;
    var l := Get(h, b);
    var steps := FreeDcSteps(l, b, uid);
    if UidCount(l.uid, 0) == 1 {
      var h1 := Push(h, SigAt(b)).h;
      assert h1.log[0].addr == SigAt(b);
      var g := Put(h1, b, Get(h1, b).(dc := true));
      assert Exec1(h1, steps[1]) == g;
      ExecNothing(g);
      ExecTwo(h, steps[0], steps[1], []);
      assert steps == [steps[0], steps[1]] + [];
    } else {
      DropProgram(h, b, uid, 0);
    }
    JournaledIsAtomic(h, steps);
  }

  // ---------------------------------------------------------------- what is not journaled

  /**
   * List updates are not recorded: when a process dies in tlsf_malloc right after it unlinked the
   * block it found, recovery cannot give back a good heap.
   */
  lemma UnlinkIsNotRecovered(h: Heap, b: nat)
    requires Good(h) && b in Walk(h.mem, 0) && h.mem[b].free
    ensures !Good(Recover(RemoveFree(h, b, Class(h.mem[b].size))))
  {
    hide Sound, RemoveFree, Class, Walk, FreeList, Distinct, DoublyLinked, Clients;
    var s := ShapeOf(h);
    FreeFlags(h, s);
    var k := Class(h.mem[b].size);
    var g := RemoveFree(h, b, k);
    var t := s.(free := s.free - {b});
    CoreOf(h, s);
    RemoveSound(h, s, NOBODY, b);
    SoundRange(g, t, NOBODY);
    SoundTiled(g, t);
    ListExact(g, t, k);
    assert g.mem[b].free && g.mem[b].size == h.mem[b].size;
    if Good(g) {
      FreeListsExact(g, k);
    }
  }

  lemma CoreOf(h: Heap, s: Shape)
    requires Wf(h, s)
    ensures Sound(h, s, NOBODY) && h.log == []
  {
  }

  lemma SoundTiled(h: Heap, s: Shape)
    requires Sound(h, s, NOBODY)
    ensures Walk(h.mem, 0) == s.blocks
  {
    hide Lists, Bits, PrevSizes, Walk, Tiled;
    WalkIsTiling(h.mem, s.blocks);
  }
}
