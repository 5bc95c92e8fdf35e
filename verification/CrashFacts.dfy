/** What recovery cannot repair: lost free blocks, uncounted bytes and blocks without owners. */
module CrashFacts {
  import opened Heap
  import opened FreeLists
  import opened Invariant
  import opened Abstraction
  import opened Blocks
  import opened UndoLog
  import opened MallocSteps
  import opened MallocCrash

  // ---------------------------------------------------------------- live bytes along the walk

  /** The payload bytes of the live blocks that the walk from p meets. */
  ghost function LiveBytes(mem: seq<Line>, p: nat): int
    decreases |mem| - p
  {
    if p >= |mem| || mem[p].size == 0 then 0
    else (if mem[p].free then 0 else 64 * (mem[p].size - 1)) + LiveBytes(mem, p + mem[p].size)
  }

  ghost function LiveFrom(mem: seq<Line>, blocks: set<nat>, p: nat): map<nat, Entry>
    requires InRange(mem, blocks)
  {
    map b | b in blocks && b >= p && !mem[b].free :: EntryOf(mem[b])
  }

  lemma {:induction false} BytesFrom(mem: seq<Line>, blocks: set<nat>, p: nat)
    requires Tiled(mem, blocks) && InRange(mem, blocks) && (p == |mem| || p in blocks)
    ensures LiveBytes(mem, p) == Total(LiveFrom(mem, blocks, p))
    decreases |mem| - p
  {
    hide Total, LiveFrom;
    if p == |mem| {
      LiveNowhere(mem, blocks);
      EmptyTotal();
    } else {
      assert Follows(mem, blocks, p);
      var q := p + mem[p].size;
      BytesFrom(mem, blocks, q);
      LiveStep(mem, blocks, p);
      if !mem[p].free { TotalInsert(LiveFrom(mem, blocks, q), p, EntryOf(mem[p])); }
    }
  }

  /** The block at p and those behind it. */
  lemma LiveStep(mem: seq<Line>, blocks: set<nat>, p: nat)
    requires InRange(mem, blocks) && p in blocks && Apart(mem, blocks) && mem[p].size > 0
    ensures var rest := LiveFrom(mem, blocks, p + mem[p].size);
            && p !in rest
            && LiveFrom(mem, blocks, p) == if mem[p].free then rest else rest[p := EntryOf(mem[p])]
  {
  }

  lemma LiveNowhere(mem: seq<Line>, blocks: set<nat>)
    requires InRange(mem, blocks)
    ensures LiveFrom(mem, blocks, |mem|) == map[]
  {
  }

  lemma EmptyTotal()
    ensures Total(map[]) == 0
  {
  }

  lemma BytesAreTotal(mem: seq<Line>, blocks: set<nat>)
    requires Tiled(mem, blocks) && InRange(mem, blocks)
    ensures LiveBytes(mem, 0) == Total(Live(mem, blocks))
  {
    BytesFrom(mem, blocks, 0);
    assert LiveFrom(mem, blocks, 0) == Live(mem, blocks);
  }

  /** In a good heap used_bytes is what the walk counts. */
  lemma GoodCounts(h: Heap)
    requires Good(h)
    ensures h.used == LiveBytes(h.mem, 0)
  {
    var s := ShapeOf(h);
    hide Lists, Bits, PrevSizes, Clients, Total, Walk, Headers, Chained, Apart;
    BytesAreTotal(h.mem, s.blocks);
  }

  ghost predicate SameBelow(a: seq<Line>, c: seq<Line>, bound: nat) {
    |a| == |c| && forall u :: 0 <= u < |a| && u < bound ==> a[u].size == c[u].size && a[u].free == c[u].free
  }

  ghost predicate SameFrom(a: seq<Line>, c: seq<Line>, lo: nat) {
    |a| == |c| && forall u :: lo <= u < |a| ==> a[u].size == c[u].size && a[u].free == c[u].free
  }

  lemma {:induction false} BytesTail(a: seq<Line>, c: seq<Line>, lo: nat, p: nat)
    requires SameFrom(a, c, lo) && lo <= p
    ensures LiveBytes(a, p) == LiveBytes(c, p)
    decreases |a| - p
  {
    if p < |a| && a[p].size > 0 { BytesTail(a, c, lo, p + a[p].size); }
  }

  lemma {:induction false} BytesHead(a: seq<Line>, c: seq<Line>, p: nat, m: nat)
    requires SameBelow(a, c, m) && p <= m < |a| && m in Walk(a, p)
    ensures LiveBytes(a, p) - LiveBytes(a, m) == LiveBytes(c, p) - LiveBytes(c, m)
    decreases m - p
  {
    if p < m { BytesHead(a, c, p + a[p].size, m); }
  }

  /** Another header at m: what the walk counts instead. */
  lemma BytesAt(a: seq<Line>, c: seq<Line>, m: nat)
    requires |a| == |c| && m < |a| && m in Walk(a, 0) && 0 < c[m].size
    requires forall u :: 0 <= u < |a| && u != m ==> a[u].size == c[u].size && a[u].free == c[u].free
    ensures LiveBytes(c, 0) == LiveBytes(a, 0) - LiveBytes(a, m)
                               + (if c[m].free then 0 else 64 * (c[m].size - 1)) + LiveBytes(a, m + c[m].size)
  {
    BytesHead(a, c, 0, m);
    BytesTail(a, c, m + 1, m + c[m].size);
  }

  // ---------------------------------------------------------------- what undoing leaves alone

  /** Undoing the record changes no size and no FREE flag below the bound. */
  predicate KeepsOutline(rec: Rec, mem: seq<Line>, bound: nat) {
    rec.addr.FlagsAt? && rec.addr.u < |mem| && rec.addr.u < bound ==>
      rec.was.Flags? && rec.was.size == mem[rec.addr.u].size && rec.was.free == mem[rec.addr.u].free
  }

  ghost predicate Quiet(g: Heap, bound: nat) {
    && LogInPool(g) && |g.log| < BUL_ENTRIES
    && (forall i :: 0 <= i < |g.log| ==> KeepsOutline(g.log[i], g.mem, bound))
  }

  ghost predicate SameLinks(g: Heap, r: Heap) {
    && |r.mem| == |g.mem| && r.matrix == g.matrix
    && forall u :: 0 <= u < |g.mem| ==> r.mem[u].prev == g.mem[u].prev && r.mem[u].next == g.mem[u].next
  }

  lemma WriteKeeps(g: Heap, a: Addr, w: Word, bound: nat)
    requires KeepsOutline(Rec(a, w), g.mem, bound)
    ensures SameBelow(g.mem, Write(g, a, w).mem, bound) && SameLinks(g, Write(g, a, w))
  {
  }

  lemma {:induction false} UndoQuiet(g: Heap, n: nat, bound: nat)
    requires Quiet(g, bound) && n <= |g.log|
    ensures SameBelow(g.mem, Undo(g, n).mem, bound) && SameLinks(g, Undo(g, n))
    decreases n
  {
    hide Write;
    if n > 0 {
      var rec := g.log[n - 1];
      WriteKeeps(g, rec.addr, rec.was, bound);
      UndoQuiet(Write(g, rec.addr, rec.was), n - 1, bound);
    }
  }

  lemma RecoverQuiet(g: Heap, bound: nat)
    requires Quiet(g, bound)
    ensures SameBelow(g.mem, Recover(g).mem, bound) && SameLinks(g, Recover(g))
  {
    hide Undo;
    UndoQuiet(g, |g.log|, bound);
  }

  lemma LogSplit(log: seq<Rec>, n: nat, a: Addr)
    requires 0 < n <= |log|
    ensures InLog(log[..n], a) <==> InLog(log[..n - 1], a) || log[n - 1].addr == a
  {
    assert log[..n][n - 1] == log[n - 1];
    forall i | 0 <= i < n - 1 ensures log[..n][i] == log[..n - 1][i] {
    }
  }

  /** An open transaction that started with `used` bytes in use. */
  ghost predicate Counts(log: seq<Rec>, used: int) {
    InLog(log, UsedAt) && forall i :: 0 <= i < |log| && log[i].addr == UsedAt ==> log[i].was == Number(used)
  }

  lemma {:induction false} UndoUsed(g: Heap, n: nat, used: int)
    requires LogInPool(g) && n <= |g.log|
    requires forall i :: 0 <= i < |g.log| && g.log[i].addr == UsedAt ==> g.log[i].was == Number(used)
    ensures Undo(g, n).used == if InLog(g.log[..n], UsedAt) then used else g.used
    decreases n
  {
    if n > 0 {
      UndoUsed(Write(g, g.log[n - 1].addr, g.log[n - 1].was), n - 1, used);
      LogSplit(g.log, n, UsedAt);
    }
  }

  /** Recovery clears the owners of u: its first owner word was recorded empty, the others are empty. */
  ghost predicate Clears(g: Heap, u: nat) {
    && u < |g.mem| && InLog(g.log, UidAt(u, 0))
    && (forall j :: 4 <= j < OWNERS ==> g.mem[u].uid[j] == 0)
    && (forall i :: 0 <= i < |g.log| && g.log[i].addr.UidAt? && g.log[i].addr.u == u ==>
          g.log[i].addr.k == 0 && g.log[i].was == NO_UIDS)
  }

  lemma {:induction false} UndoOwners(g: Heap, n: nat, u: nat)
    requires LogInPool(g) && n <= |g.log| && u < |g.mem|
    requires forall i :: 0 <= i < |g.log| && g.log[i].addr.UidAt? && g.log[i].addr.u == u ==>
      g.log[i].addr.k == 0 && g.log[i].was == NO_UIDS
    ensures forall j :: 0 <= j < OWNERS ==>
      Undo(g, n).mem[u].uid[j] == if j < 4 && InLog(g.log[..n], UidAt(u, 0)) then 0 else g.mem[u].uid[j]
    decreases n
  {
    if n > 0 {
      var rec := g.log[n - 1];
      var w := Write(g, rec.addr, rec.was);
      WriteOwners(g, rec, u);
      UndoOwners(w, n - 1, u);
      LogSplit(g.log, n, UidAt(u, 0));
    }
  }

  lemma WriteOwners(g: Heap, rec: Rec, u: nat)
    requires u < |g.mem| && (rec.addr.UidAt? && rec.addr.u == u ==> rec.addr.k == 0 && rec.was == NO_UIDS)
    ensures forall j :: 0 <= j < OWNERS ==>
      Write(g, rec.addr, rec.was).mem[u].uid[j] == if j < 4 && rec.addr == UidAt(u, 0) then 0 else g.mem[u].uid[j]
  {
  }

  /** A header whose records all agree gets what they say. */
  lemma {:induction false} UndoFlags(g: Heap, n: nat, u: nat, size: nat, free: bool)
    requires LogInPool(g) && n <= |g.log| && u < |g.mem|
    requires forall i :: 0 <= i < |g.log| && g.log[i].addr == FlagsAt(u) ==>
      g.log[i].was.Flags? && g.log[i].was.size == size && g.log[i].was.free == free
    ensures var l := Undo(g, n).mem[u];
            && l.size == (if InLog(g.log[..n], FlagsAt(u)) then size else g.mem[u].size)
            && l.free == (if InLog(g.log[..n], FlagsAt(u)) then free else g.mem[u].free)
    decreases n
  {
    if n > 0 {
      var rec := g.log[n - 1];
      WriteFlags(g, rec, u);
      UndoFlags(Write(g, rec.addr, rec.was), n - 1, u, size, free);
      LogSplit(g.log, n, FlagsAt(u));
    }
  }

  lemma WriteFlags(g: Heap, rec: Rec, u: nat)
    requires u < |g.mem| && (rec.addr == FlagsAt(u) ==> rec.was.Flags?)
    ensures var l := Write(g, rec.addr, rec.was).mem[u];
            if rec.addr == FlagsAt(u) then l.size == rec.was.size && l.free == rec.was.free
            else l.size == g.mem[u].size && l.free == g.mem[u].free
  {
  }

  lemma {:induction false} UndoLinks(g: Heap, n: nat)
    requires n <= |g.log|
    ensures SameLinks(g, Undo(g, n))
    decreases n
  {
    if n > 0 { UndoLinks(Write(g, g.log[n - 1].addr, g.log[n - 1].was), n - 1); }
  }

  // ---------------------------------------------------------------- heaps that stay bad

  lemma LostStaysLost(g: Heap, x: nat, bound: nat)
    requires Lost(g, x) && Quiet(g, bound) && x < bound
    ensures !Good(Recover(g))
  {
    hide Recover, Good, Walk;
    var r := Recover(g);
    RecoverQuiet(g, bound);
    WalkMeets(g.mem, r.mem, 0, x);
    LostIsBad(r, x);
  }

  /**
   * Why recovery cannot help: the walk counts other live bytes than at the start of the transaction, or it meets a
   * block that is allocated and will have no owner.
   */
  datatype Why = Miscounts(used: int) | Stray(to: nat)

  function Bound(mem: seq<Line>, why: Why): nat {
    match why
    case Miscounts(_) => |mem|
    case Stray(to) => to + 1
  }

  ghost predicate Hopeless(g: Heap, why: Why) {
    && Quiet(g, Bound(g.mem, why))
    && match why
       case Miscounts(used) => Counts(g.log, used) && LiveBytes(g.mem, 0) != used
       case Stray(to) => Clears(g, to) && to in Walk(g.mem, 0) && !g.mem[to].free
  }

  lemma HopelessIsBad(g: Heap, why: Why)
    requires Hopeless(g, why)
    ensures !Good(Recover(g))
  {
    match why
    case Miscounts(used) => MiscountedIsBad(g, used);
    case Stray(to) => StrayIsBad(g, to);
  }

  lemma MiscountedIsBad(g: Heap, used: int)
    requires Hopeless(g, Miscounts(used))
    ensures !Good(Recover(g))
  {
    hide Good, LiveBytes, Undo;
    var r := Recover(g);
    RecoverQuiet(g, |g.mem|);
    UndoUsed(g, |g.log|, used);
    assert g.log[..|g.log|] == g.log;
    BytesTail(g.mem, r.mem, 0, 0);
    if Good(r) { GoodCounts(r); }
  }

  lemma StrayIsBad(g: Heap, to: nat)
    requires Hopeless(g, Stray(to))
    ensures !Good(Recover(g))
  {
    hide Good, Walk, Undo;
    var r := Recover(g);
    RecoverQuiet(g, to + 1);
    UndoOwners(g, |g.log|, to);
    assert g.log[..|g.log|] == g.log;
    WalkMeets(g.mem, r.mem, 0, to);
    if Good(r) { LiveIsOwned(r, to); }
  }

  lemma LiveIsOwned(h: Heap, b: nat)
    requires Good(h) && b < |h.mem| && b in Walk(h.mem, 0) && !h.mem[b].free
    ensures exists j :: 0 <= j < OWNERS && h.mem[b].uid[j] != 0
  {
    var s := ShapeOf(h);
    hide Lists, Bits, Tiled, PrevSizes, Walk, Total;
    assert ClientOk(h.mem, s.free, b);
  }

  // ---------------------------------------------------------------- stores that keep it so

  /** A store or record after which the walk counts and meets the same. */
  predicate Calm(a: Act, mem: seq<Line>, why: Why) {
    match a
    case Do(Records(UsedAt)) => why.Stray?
    case Do(Records(UidAt(u, _))) => u < |mem| && why.Stray? && u != why.to
    case Do(Records(x)) => x.u < |mem|
    case Do(Stores(FlagsAt(u), Flags(size, free, _))) =>
      u < |mem| && u < Bound(mem, why) ==> size == mem[u].size && free == mem[u].free
    case Do(Stores(UidAt(u, _), _)) => why.Stray? ==> u != why.to
    case Do(Stores(_, _)) => true
    case Do(Undoes(_)) => false
    case Fill(u, _) => why.Stray? && u > why.to
    case _ => true
  }

  ghost predicate AllCalm(acts: seq<Act>, mem: seq<Line>, why: Why) {
    forall i :: 0 <= i < |acts| ==> Calm(acts[i], mem, why)
  }

  lemma CalmKeeps(g: Heap, a: Act, why: Why)
    requires Quiet(g, Bound(g.mem, why)) && Calm(a, g.mem, why) && |g.log| + 1 < BUL_ENTRIES
    ensures var r := Run1(g, a);
            && Quiet(r, Bound(r.mem, why)) && SameBelow(g.mem, r.mem, Bound(g.mem, why)) && |r.log| <= |g.log| + 1
  {
  }

  lemma CalmCounts(g: Heap, a: Act, used: int)
    requires Counts(g.log, used) && Calm(a, g.mem, Miscounts(used)) && |g.log| < BUL_ENTRIES
    ensures Counts(Run1(g, a).log, used)
  {
    hide Write, Recover, Read;
    var i :| 0 <= i < |g.log| && g.log[i].addr == UsedAt;
    assert Run1(g, a).log[i].addr == UsedAt;
  }

  lemma CalmClears(g: Heap, a: Act, to: nat)
    requires Clears(g, to) && Calm(a, g.mem, Stray(to)) && |g.log| < BUL_ENTRIES
    ensures Clears(Run1(g, a), to)
  {
    hide Recover, Read;
    var i :| 0 <= i < |g.log| && g.log[i].addr == UidAt(to, 0);
    assert Run1(g, a).log[i].addr == UidAt(to, 0);
  }

  lemma CalmStep(g: Heap, a: Act, why: Why)
    requires Hopeless(g, why) && Calm(a, g.mem, why) && |g.log| + 1 < BUL_ENTRIES
    ensures var r := Run1(g, a);
            Hopeless(r, why) && SameBelow(g.mem, r.mem, Bound(g.mem, why)) && |r.log| <= |g.log| + 1
  {
    hide Quiet, Calm, Run1, Counts, Clears, LiveBytes, Walk;
    CalmKeeps(g, a, why);
    var r := Run1(g, a);
    match why
    case Miscounts(used) =>
      CalmCounts(g, a, used);
      BytesTail(g.mem, r.mem, 0, 0);
    case Stray(to) =>
      CalmClears(g, a, to);
      ClearsInside(g, to);
      WalkMeets(g.mem, r.mem, 0, to);
  }

  lemma ClearsInside(g: Heap, to: nat)
    requires Clears(g, to)
    ensures to < |g.mem|
  {
  }

  lemma CalmTrans(a: Act, c: seq<Line>, d: seq<Line>, why: Why)
    requires Calm(a, c, why) && SameBelow(c, d, Bound(c, why))
    ensures Calm(a, d, why)
  {
  }

  lemma {:induction false} CalmRun(g: Heap, acts: seq<Act>, why: Why)
    requires Hopeless(g, why) && AllCalm(acts, g.mem, why) && |g.log| + |acts| < BUL_ENTRIES
    ensures var r := Run(g, acts);
            Hopeless(r, why) && SameBelow(g.mem, r.mem, Bound(g.mem, why)) && |r.log| <= |g.log| + |acts|
    decreases |acts|
  {
    hide Hopeless, Calm, Run1;
    if acts != [] {
      CalmStep(g, acts[0], why);
      var r := Run1(g, acts[0]);
      forall i | 0 <= i < |acts| - 1 ensures Calm(acts[1..][i], r.mem, why) {
        CalmTrans(acts[i + 1], g.mem, r.mem, why);
      }
      CalmRun(r, acts[1..], why);
    }
  }

  // ---------------------------------------------------------------- lists of stores

  /** After each of the stores recovery gives no good heap. */
  ghost predicate AllBad(g: Heap, acts: seq<Act>) {
    forall i {:trigger acts[..i]} :: 0 < i <= |acts| ==> !Good(Recover(Run(g, acts[..i])))
  }

  lemma BadNothing(g: Heap)
    ensures AllBad(g, [])
  {
  }

  lemma OneBad(g: Heap, a: Act)
    requires !Good(Recover(Run1(g, a)))
    ensures AllBad(g, [a])
  {
    hide Good, Recover, Run, Run1;
    RunOne(g, a, []);
    forall i | 0 < i <= 1 ensures !Good(Recover(Run(g, [a][..i]))) {
      assert [a][..i] == [a];
    }
  }

  lemma BadAppend(g: Heap, a: seq<Act>, c: seq<Act>)
    requires AllBad(g, a) && AllBad(Run(g, a), c)
    ensures AllBad(g, a + c)
  {
    hide Run, Good, Recover;
    forall i | 0 < i <= |a + c| ensures !Good(Recover(Run(g, (a + c)[..i]))) {
      if i <= |a| {
        assert (a + c)[..i] == a[..i];
      } else {
        assert (a + c)[..i] == a + c[..i - |a|];
        RunAppend(g, a, c[..i - |a|]);
      }
    }
  }

  /** A hopeless heap stays so under calm stores. */
  lemma BadRun(g: Heap, acts: seq<Act>, why: Why)
    requires Hopeless(g, why) && AllCalm(acts, g.mem, why) && |g.log| + |acts| < BUL_ENTRIES
    ensures AllBad(g, acts)
  {
    hide Hopeless, Good, Recover, Run, Calm;
    forall i | 0 < i <= |acts| ensures !Good(Recover(Run(g, acts[..i]))) {
      CalmRun(g, acts[..i], why);
      HopelessIsBad(Run(g, acts[..i]), why);
    }
  }

  /** One store that makes the heap hopeless, and the calm stores after it. */
  lemma BadChunk(g: Heap, first: Act, rest: seq<Act>, why: Why)
    requires var r := Run1(g, first);
      Hopeless(r, why) && AllCalm(rest, r.mem, why) && |r.log| + |rest| < BUL_ENTRIES
    ensures AllBad(g, [first] + rest)
  {
    hide Hopeless, Good, Recover, Run, Run1, Calm;
    RunOne(g, first, []);
    HopelessIsBad(Run1(g, first), why);
    BadRun(Run1(g, first), rest, why);
    forall i | 0 < i <= 1 ensures !Good(Recover(Run(g, [first][..i]))) {
      assert [first][..i] == [first];
    }
    BadAppend(g, [first], rest);
  }
}
