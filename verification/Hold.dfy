/** The uid hold of libsrpc_shmem_proc_lock against the daemon's destruction of a process. */
module Hold {

  const LOCKS: nat := 4
  const NO_LOCKS: seq<nat> := [0, 0, 0, 0]

  /** Where a thread stands inside libsrpc_shmem_proc_lock. */
  datatype Pc = Outside | Checked(uid: nat) | Stored(uid: nat, i: nat) | Verified(uid: nat, i: nat)

  /**
   * The uid of the thread's process, gc_lock_uid of its current request
   * and the slots that proc_lock returned to it.
   */
  datatype Thread = Thread(owner: nat, pc: Pc, locks: seq<nat>, held: set<nat>)

  /**
   * One run of libsrpc_shmem_is_locked_uid: the threads in the lists when it started, those passed so far,
   * and whether a hold was seen. A thread that starts later puts its request in front and may be missed.
   */
  datatype Scan = Scan(uid: nat, todo: set<nat>, seen: set<nat>, found: bool)

  /**
   * `valid` are the uids of processes that are not being destroyed, `trash` those whose user blocks
   * wait in a trash node, `freed` those whose user blocks were freed.
   */
  datatype World = World(
    threads: map<nat, Thread>, scans: map<nat, Scan>, valid: set<nat>, trash: set<nat>, freed: set<nat>)

  datatype Event =
    | Check(c: nat, uid: nat) | Store(c: nat) | Verify(c: nat) | Confirm(c: nat, owns: bool)
    | Unlock(c: nat, i: nat) | UnlockAll(c: nat) | Join(c: nat, owner: nat)
    | Invalidate(uid: nat) | StartScan(k: nat, uid: nat) | Look(k: nat, c: nat) | EndScan(k: nat)

  // ---------------------------------------------------------------- steps

  function FreeLock(l: seq<nat>, i: nat): (r: nat)
    ensures r <= |l| || r == i
    ensures r < |l| ==> l[r] == 0
    decreases |l| - i
  {
    if i >= |l| || l[i] == 0 then i else FreeLock(l, i + 1)
  }

  function Put(w: World, c: nat, t: Thread): World { w.(threads := w.threads[c := t]) }

  function Cleared(t: Thread, i: nat): Thread {
    t.(pc := Outside, locks := if i < |t.locks| then t.locks[i := 0] else t.locks)
  }

  function ThreadStep(w: World, e: Event): World
    requires e.Check? || e.Store? || e.Verify? || e.Confirm? || e.Unlock? || e.UnlockAll?
  {
    if e.c !in w.threads then w else
      var t := w.threads[e.c];
      match e
      case Check(c, uid) => if t.pc.Outside? && uid != 0 && uid in w.valid then Put(w, c, t.(pc := Checked(uid))) else w
      case Store(c) =>
        if !t.pc.Checked? then w else
          var i := FreeLock(t.locks, 0);
          if i >= |t.locks| then Put(w, c, t.(pc := Outside))
          else Put(w, c, t.(pc := Stored(t.pc.uid, i), locks := t.locks[i := t.pc.uid]))
      case Verify(c) =>
        if !t.pc.Stored? then w
        else if t.pc.uid in w.valid then Put(w, c, t.(pc := Verified(t.pc.uid, t.pc.i)))
        else Put(w, c, Cleared(t, t.pc.i))
      case Confirm(c, owns) =>
        if !t.pc.Verified? then w
        else if owns then Put(w, c, t.(pc := Outside, held := t.held + {t.pc.i}))
        else Put(w, c, Cleared(t, t.pc.i))
      case Unlock(c, i) =>
        if t.pc.Outside? then Put(w, c, Cleared(t, i).(held := t.held - {i})) else w
      case UnlockAll(c) =>
        if t.pc.Outside? then Put(w, c, t.(locks := seq(|t.locks|, _ => 0), held := {})) else w
  }

  /** The destroyer and the collector decide by a scan over valid processes; a scan without a find frees. */
  function ScanStep(w: World, e: Event): World
    requires e.Join? || e.Invalidate? || e.StartScan? || e.Look? || e.EndScan?
  {
    match e
    case Join(c, owner) => if c in w.threads then w else Put(w, c, Thread(owner, Outside, NO_LOCKS, {}))
    case Invalidate(uid) => w.(valid := w.valid - {uid})
    case StartScan(k, uid) =>
      if uid in w.valid || k in w.scans then w else w.(scans := w.scans[k := Scan(uid, w.threads.Keys, {}, false)])
    case Look(k, c) =>
      if k !in w.scans || c !in w.threads then w else
        var s := w.scans[k];
        var hit := w.threads[c].owner in w.valid && s.uid in w.threads[c].locks;
        w.(scans := w.scans[k := s.(seen := s.seen + {c}, found := s.found || hit)])
    case EndScan(k) =>
      if k !in w.scans || !(w.scans[k].found || Complete(w, k)) then w else
        var uid := w.scans[k].uid;
        if w.scans[k].found then w.(scans := w.scans - {k}, trash := w.trash + {uid})
        else w.(scans := w.scans - {k}, trash := w.trash - {uid}, freed := w.freed + {uid})
  }

  /** The scan has come to the end of its list. */
  predicate Complete(w: World, k: nat) {
    k in w.scans && w.scans[k].todo <= w.scans[k].seen
  }

  function Step(w: World, e: Event): World {
    match e
    case Join(_, _) => ScanStep(w, e)
    case Invalidate(_) => ScanStep(w, e)
    case StartScan(_, _) => ScanStep(w, e)
    case Look(_, _) => ScanStep(w, e)
    case EndScan(_) => ScanStep(w, e)
    case _ => ThreadStep(w, e)
  }

  // ---------------------------------------------------------------- invariant

  /** The thread has seen the process valid after it stored its hold, or was told that it holds. */
  ghost predicate Holds(w: World, c: nat, uid: nat) {
    c in w.threads &&
    var t := w.threads[c];
    || (t.pc.Verified? && t.pc.uid == uid)
    || (exists i :: i in t.held && i < |t.locks| && t.locks[i] == uid)
  }

  /** The thread's process is not being destroyed itself. */
  ghost predicate HoldsAlive(w: World, c: nat, uid: nat) {
    Holds(w, c, uid) && w.threads[c].owner in w.valid
  }

  ghost predicate ThreadOk(w: World, c: nat)
    requires c in w.threads
  {
    var t := w.threads[c];
    && |t.locks| == LOCKS
    && (forall i :: i in t.held ==> i < LOCKS && t.locks[i] != 0)
    && (t.pc.Checked? ==> t.pc.uid != 0)
    && (t.pc.Stored? ==> t.pc.i < LOCKS && t.locks[t.pc.i] == t.pc.uid != 0 && t.pc.i !in t.held)
    && (t.pc.Verified? ==> t.pc.i < LOCKS && t.locks[t.pc.i] == t.pc.uid != 0 && t.pc.i !in t.held)
  }

  ghost predicate ScanOk(w: World, k: nat)
    requires k in w.scans
  {
    var s := w.scans[k];
    && s.uid !in w.valid
    && (!s.found ==> forall c {:trigger HoldsAlive(w, c, s.uid)} :: c !in s.todo - s.seen ==> !HoldsAlive(w, c, s.uid))
  }

  ghost predicate FreedOk(w: World, uid: nat) {
    uid !in w.valid && forall c {:trigger HoldsAlive(w, c, uid)} :: !HoldsAlive(w, c, uid)
  }

  ghost predicate Inv(w: World) {
    && (forall c {:trigger ThreadOk(w, c)} :: c in w.threads ==> ThreadOk(w, c))
    && (forall k {:trigger ScanOk(w, k)} :: k in w.scans ==> ScanOk(w, k))
    && (forall uid {:trigger FreedOk(w, uid)} :: uid in w.freed ==> FreedOk(w, uid))
  }

  ghost predicate Fresh(w: World) {
    && w.scans == map[] && w.freed == {}
    && forall c :: c in w.threads ==> w.threads[c] == Thread(w.threads[c].owner, Outside, NO_LOCKS, {})
  }

  lemma FreshInv(w: World)
    requires Fresh(w)
    ensures Inv(w)
  {
  }

  /** A hold on an invalidated process can only have been there before. */
  lemma NoNewHold(w: World, e: Event, c: nat, uid: nat)
    requires Inv(w) && uid !in w.valid && HoldsAlive(Step(w, e), c, uid)
    ensures HoldsAlive(w, c, uid)
  {
    if e.Check? || e.Store? || e.Verify? || e.Confirm? || e.Unlock? || e.UnlockAll? {
      if c == e.c && c in w.threads { NoNewHoldThread(w, e, uid); }
    }
  }

  lemma NoNewHoldThread(w: World, e: Event, uid: nat)
    requires e.Check? || e.Store? || e.Verify? || e.Confirm? || e.Unlock? || e.UnlockAll?
    requires e.c in w.threads && ThreadOk(w, e.c) && uid !in w.valid && Holds(ThreadStep(w, e), e.c, uid)
    ensures Holds(w, e.c, uid)
  {
    var t, u := w.threads[e.c], ThreadStep(w, e).threads[e.c];
    if !(u.pc.Verified? && u.pc.uid == uid) {
      var i :| i in u.held && i < |u.locks| && u.locks[i] == uid;
      assert i in t.held ==> t.locks[i] == uid;
    }
  }

  lemma ThreadInv(w: World, e: Event)
    requires Inv(w) && (e.Check? || e.Store? || e.Verify? || e.Confirm? || e.Unlock? || e.UnlockAll?)
    ensures forall c :: c in Step(w, e).threads ==> ThreadOk(Step(w, e), c)
  {
    var r := Step(w, e);
    forall c | c in r.threads ensures ThreadOk(r, c) {
      assert ThreadOk(w, c);
    }
  }

  lemma HoldIsStored(w: World, c: nat, uid: nat)
    requires Inv(w) && Holds(w, c, uid)
    ensures c in w.threads && uid in w.threads[c].locks
  {
    assert ThreadOk(w, c);
  }

  lemma ValidShrinks(w: World, e: Event)
    ensures Step(w, e).valid <= w.valid
  {
  }

  lemma ScanInv(w: World, e: Event, k: nat)
    requires Inv(w) && k in Step(w, e).scans
    ensures ScanOk(Step(w, e), k)
  {
    hide Holds, ThreadOk, ThreadStep;
    var r := Step(w, e);
    var s := r.scans[k];
    ScansFrom(w, e, k);
    if k in w.scans { assert ScanOk(w, k); }
    forall c | c !in s.todo - s.seen && !s.found ensures !HoldsAlive(r, c, s.uid) {
      if HoldsAlive(r, c, s.uid) {
        NoNewHold(w, e, c, s.uid);
        HoldIsStored(w, c, s.uid);
      }
    }
  }

  /** Where a scan after a step comes from. */
  lemma ScansFrom(w: World, e: Event, k: nat)
    requires k in Step(w, e).scans
    ensures var r := Step(w, e); var s := r.scans[k];
            && r.valid <= w.valid
            && (k !in w.scans ==> s.todo == w.threads.Keys && s.seen == {} && s.uid !in w.valid)
            && (k in w.scans ==>
                  && s.uid == w.scans[k].uid && s.todo == w.scans[k].todo && (w.scans[k].found ==> s.found)
                  && (forall c :: c in s.seen && c !in w.scans[k].seen && !s.found ==>
                        c in w.threads && !(w.threads[c].owner in w.valid && s.uid in w.threads[c].locks)))
  {
  }

  lemma FreedInv(w: World, e: Event, uid: nat)
    requires Inv(w) && uid in Step(w, e).freed
    ensures FreedOk(Step(w, e), uid)
  {
    hide Holds, ThreadOk, ThreadStep;
    var r := Step(w, e);
    ValidShrinks(w, e);
    if uid in w.freed {
      assert FreedOk(w, uid);
    } else {
      FreedFrom(w, e, uid);
      assert ScanOk(w, e.k);
    }
    forall c ensures !HoldsAlive(r, c, uid) {
      if HoldsAlive(r, c, uid) {
        NoNewHold(w, e, c, uid);
        HoldIsStored(w, c, uid);
      }
    }
  }

  lemma FreedFrom(w: World, e: Event, uid: nat)
    requires uid in Step(w, e).freed && uid !in w.freed
    ensures e.EndScan? && e.k in w.scans && w.scans[e.k].uid == uid
    ensures !w.scans[e.k].found && Complete(w, e.k)
  {
  }

  /** Every step of every thread, of the destroyer and of the collector keeps the invariant. */
  lemma StepInv(w: World, e: Event)
    requires Inv(w)
    ensures Inv(Step(w, e))
  {
    hide ThreadOk, ScanOk, FreedOk, Step;
    var r := Step(w, e);
    forall c | c in r.threads ensures ThreadOk(r, c) {
      ThreadsOk(w, e, c);
    }
    forall k | k in r.scans ensures ScanOk(r, k) {
      ScanInv(w, e, k);
    }
    forall uid | uid in r.freed ensures FreedOk(r, uid) {
      FreedInv(w, e, uid);
    }
  }

  lemma ThreadsOk(w: World, e: Event, c: nat)
    requires Inv(w) && c in Step(w, e).threads
    ensures ThreadOk(Step(w, e), c)
  {
    if e.Check? || e.Store? || e.Verify? || e.Confirm? || e.Unlock? || e.UnlockAll? {
      ThreadInv(w, e);
    } else if c in w.threads {
      assert ThreadOk(w, c);
    }
  }

  // ---------------------------------------------------------------- runs

  function After(w: World, events: seq<Event>): World
    decreases |events|
  {
    if events == [] then w else After(Step(w, events[0]), events[1..])
  }

  lemma {:induction false} RunInv(w: World, events: seq<Event>)
    requires Inv(w)
    ensures Inv(After(w, events))
    decreases |events|
  {
    hide Inv, Step;
    if events != [] {
      StepInv(w, events[0]);
      RunInv(Step(w, events[0]), events[1..]);
    }
  }

  lemma FreedIsNotHeld(w: World, uid: nat, c: nat)
    requires Inv(w) && HoldsAlive(w, c, uid)
    ensures uid !in w.freed
  {
    assert uid in w.freed ==> FreedOk(w, uid);
  }

  /** In every run: while a thread of a valid process holds proc_lock's slot, the blocks it names are not freed. */
  lemma HeldIsNotFreed(w: World, events: seq<Event>, c: nat, i: nat)
    requires Fresh(w)
    requires var r := After(w, events); c in r.threads && r.threads[c].owner in r.valid && i in r.threads[c].held
    ensures var r := After(w, events);
            i < |r.threads[c].locks| && r.threads[c].locks[i] != 0 && r.threads[c].locks[i] !in r.freed
  {
    hide Step;
    FreshInv(w);
    RunInv(w, events);
    var r := After(w, events);
    assert ThreadOk(r, c);
    FreedIsNotHeld(r, r.threads[c].locks[i], c);
  }

  /** A completed scan, by the destroyer or by the collector, has seen every hold of every valid process. */
  lemma ScanSeesHolds(w: World, events: seq<Event>, k: nat, c: nat, i: nat)
    requires Fresh(w)
    requires var r := After(w, events);
      && Complete(r, k)
      && c in r.threads && r.threads[c].owner in r.valid
      && i in r.threads[c].held && i < |r.threads[c].locks| && r.threads[c].locks[i] == r.scans[k].uid
    ensures After(w, events).scans[k].found
  {
    hide Step;
    FreshInv(w);
    RunInv(w, events);
    var r := After(w, events);
    assert ScanOk(r, k);
    assert HoldsAlive(r, c, r.scans[k].uid);
  }

  // ---------------------------------------------------------------- when a pass frees

  /** What a look at thread c counts as a hold of uid: a slot of a thread whose process is valid. */
  predicate Hit(w: World, uid: nat, c: nat) {
    c in w.threads && w.threads[c].owner in w.valid && uid in w.threads[c].locks
  }

  /** Some look of pass k among these events finds a hold, at the moment of that look. */
  predicate HitDuring(w: World, events: seq<Event>, k: nat)
    decreases |events|
  {
    events != [] &&
    ((events[0].Look? && events[0].k == k && k in w.scans && Hit(w, w.scans[k].uid, events[0].c))
     || HitDuring(Step(w, events[0]), events[1..], k))
  }

  lemma {:induction false} PassFinds(w: World, events: seq<Event>, k: nat)
    requires k in w.scans && EndScan(k) !in events
    ensures var r := After(w, events);
            && k in r.scans && r.scans[k].uid == w.scans[k].uid
            && (r.scans[k].found <==> w.scans[k].found || HitDuring(w, events, k))
    decreases |events|
  {
    hide Hit, Step;
    if events != [] {
      LookFinds(w, events[0], k);
      PassFinds(Step(w, events[0]), events[1..], k);
    }
  }

  lemma LookFinds(w: World, e: Event, k: nat)
    requires k in w.scans && e != EndScan(k)
    ensures var r := Step(w, e);
            && k in r.scans && r.scans[k].uid == w.scans[k].uid
            && (r.scans[k].found <==> w.scans[k].found || (e.Look? && e.k == k && Hit(w, w.scans[k].uid, e.c)))
  {
  }

  /** The end of a complete pass. */
  lemma EndDecides(w: World, k: nat)
    requires Complete(w, k) && w.scans[k].uid !in w.freed
    ensures w.scans[k].uid in Step(w, EndScan(k)).freed <==> !w.scans[k].found
  {
  }

  lemma EndAfter(w: World, events: seq<Event>, e: Event)
    ensures After(w, events + [e]) == Step(After(w, events), e)
  {
    hide Step;
    AfterAppend(w, events, [e]);
    assert [e][1..] == [];
  }

  /** Whatever others do meanwhile, a complete pass frees if and only if none of its looks finds a hold. */
  lemma PassFreesBetween(w: World, k: nat, uid: nat, events: seq<Event>)
    requires uid !in w.valid && k !in w.scans && EndScan(k) !in events
    requires var r := After(Step(w, StartScan(k, uid)), events);
      uid !in r.freed && Complete(r, k)
    ensures uid in After(Step(w, StartScan(k, uid)), events + [EndScan(k)]).freed
      <==> !HitDuring(Step(w, StartScan(k, uid)), events, k)
  {
    hide After, HitDuring;
    var v := Step(w, StartScan(k, uid));
    PassFinds(v, events, k);
    EndDecides(After(v, events), k);
    EndAfter(v, events, EndScan(k));
  }

  /** The pass looks at the threads in the order of the lists. */
  function Looks(k: nat, order: seq<nat>): seq<Event> {
    seq(|order|, i requires 0 <= i < |order| => Look(k, order[i]))
  }

  lemma {:induction false} LooksDo(w: World, k: nat, order: seq<nat>)
    requires k in w.scans && forall i :: 0 <= i < |order| ==> order[i] in w.threads
    ensures var r := After(w, Looks(k, order));
            && r.threads == w.threads && r.valid == w.valid && r.freed == w.freed
            && k in r.scans && r.scans[k].uid == w.scans[k].uid && r.scans[k].todo == w.scans[k].todo
            && r.scans[k].seen == w.scans[k].seen + (set i | 0 <= i < |order| :: order[i])
            && (r.scans[k].found <==>
                  w.scans[k].found || exists i :: 0 <= i < |order| && Hit(w, w.scans[k].uid, order[i]))
    decreases |order|
  {
    if order != [] {
      var c, rest := order[0], order[1..];
      assert Looks(k, order)[1..] == Looks(k, rest);
      var v := Step(w, Look(k, c));
      forall d ensures Hit(v, v.scans[k].uid, d) == Hit(w, w.scans[k].uid, d) {
      }
      hide Hit;
      LooksDo(v, k, rest);
      assert forall i :: 0 < i < |order| ==> order[i] == rest[i - 1];
      assert forall i :: 0 <= i < |rest| ==> rest[i] == order[i + 1];
    }
  }

  /**
   * The exact condition: a pass of libsrpc_shmem_is_locked_uid that nobody interrupts frees the blocks of a
   * process that is gone if and only if no thread of a valid process lists the uid in a slot, held or not.
   */
  lemma PassFreesExactly(w: World, k: nat, uid: nat, order: seq<nat>)
    requires uid !in w.valid && k !in w.scans && uid !in w.freed
    requires (set i | 0 <= i < |order| :: order[i]) == w.threads.Keys
    ensures uid in After(w, [StartScan(k, uid)] + Looks(k, order) + [EndScan(k)]).freed <==> !exists c :: Hit(w, uid, c)
  {
    var v := Step(w, StartScan(k, uid));
    assert v == w.(scans := w.scans[k := Scan(uid, w.threads.Keys, {}, false)]);
    assert forall c :: Hit(v, uid, c) == Hit(w, uid, c);
    forall c | Hit(w, uid, c) ensures exists i :: 0 <= i < |order| && Hit(v, uid, order[i]) {
      assert c in w.threads.Keys;
    }
    forall i | 0 <= i < |order| ensures order[i] in v.threads {
      assert order[i] in w.threads.Keys;
    }
    hide Hit, Step, After;
    LooksDo(v, k, order);
    AfterOne(w, StartScan(k, uid));
    AfterAppend(w, [StartScan(k, uid)], Looks(k, order));
    EndAfter(w, [StartScan(k, uid)] + Looks(k, order), EndScan(k));
    EndDecides(After(v, Looks(k, order)), k);
  }

  lemma AfterOne(w: World, e: Event)
    ensures After(w, [e]) == Step(w, e)
  {
    hide Step;
    assert [e][1..] == [];
  }

  // Thread 0 of process 2 holds a block of process 1; then both processes go, the holder first.
  const LOCKING: seq<Event> := [Check(0, 1), Store(0), Verify(0), Confirm(0, true)]
  const DYING: seq<Event> := [Invalidate(2), Invalidate(1), StartScan(0, 1), Look(0, 0)]

  lemma HolderLocks(w: World)
    requires w.threads == map[0 := Thread(2, Outside, NO_LOCKS, {})] && w.valid == {1, 2}
    ensures After(w, LOCKING) == w.(threads := map[0 := Thread(2, Outside, [1, 0, 0, 0], {0})])
  {
    AfterFour(w, LOCKING);
    var t := Thread(2, Outside, NO_LOCKS, {});
    assert t.locks[0 := 1] == [1, 0, 0, 0] && t.held + {0} == {0};
    var w1 := Step(w, LOCKING[0]);
    assert w1.threads == map[0 := t.(pc := Checked(1))];
    var w2 := Step(w1, LOCKING[1]);
    assert w2.threads == map[0 := t.(pc := Stored(1, 0), locks := [1, 0, 0, 0])];
    var w3 := Step(w2, LOCKING[2]);
    assert w3.threads == map[0 := t.(pc := Verified(1, 0), locks := [1, 0, 0, 0])];
    assert Step(w3, LOCKING[3]).threads == map[0 := t.(locks := [1, 0, 0, 0], held := {0})];
  }

  lemma HolderDies(w: World)
    requires w.threads.Keys == {0} && w.threads[0].owner == 2 && w.valid == {1, 2} && w.scans == map[]
    ensures After(w, DYING) == w.(valid := {}, scans := map[0 := Scan(1, {0}, {0}, false)])
  {
    AfterFour(w, DYING);
    var w1 := Step(Step(w, DYING[0]), DYING[1]);
    assert w1.valid == {};
    var w2 := Step(w1, DYING[2]);
    assert w2.scans == map[0 := Scan(1, {0}, {}, false)];
    assert w2.scans[0].seen + {0} == {0};
    assert Step(w2, DYING[3]).scans == map[0 := Scan(1, {0}, {0}, false)];
  }

  lemma ScanEnds(w: World)
    requires w.threads.Keys == {0} && w.scans == map[0 := Scan(1, {0}, {0}, false)]
    ensures 1 in After(w, [EndScan(0)]).freed && After(w, [EndScan(0)]).threads == w.threads
  {
  }

  /** A witness: a slot that proc_lock returned does not protect once the holder's own process is going. */
  lemma DyingHolderIsPassedOver(w: World)
    requires Fresh(w) && w.threads == map[0 := Thread(2, Outside, NO_LOCKS, {})] && w.valid == {1, 2}
    ensures var r := After(w, LOCKING + DYING + [EndScan(0)]);
            0 in r.threads && r.threads[0].held == {0} && r.threads[0].locks == [1, 0, 0, 0] && 1 in r.freed
  {
    hide After;
    AfterAppend(w, LOCKING, DYING);
    AfterAppend(w, LOCKING + DYING, [EndScan(0)]);
    HolderLocks(w);
    HolderDies(After(w, LOCKING));
    ScanEnds(After(w, LOCKING + DYING));
  }

  lemma {:induction false} AfterAppend(w: World, a: seq<Event>, c: seq<Event>)
    ensures After(w, a + c) == After(After(w, a), c)
    decreases |a|
  {
    hide Step;
    if a == [] {
      assert a + c == c;
    } else {
      assert (a + c)[1..] == a[1..] + c;
      AfterAppend(Step(w, a[0]), a[1..], c);
    }
  }

  lemma AfterFour(w: World, es: seq<Event>)
    requires |es| == 4
    ensures After(w, es) == Step(Step(Step(Step(w, es[0]), es[1]), es[2]), es[3])
  {
    hide Step;
    assert es[1..][1..] == es[2..] && es[2..][1..] == es[3..] && es[3..][1..] == [];
    var w2 := Step(Step(w, es[0]), es[1]);
    assert After(w2, es[2..]) == After(Step(w2, es[2]), es[3..]);
    assert After(Step(w2, es[2]), es[3..]) == After(Step(Step(w2, es[2]), es[3]), []);
  }
}
