/** tlsf_free_uid_blocks with its two destructors: the dead process and the garbage collector. */
module Cleanup {
  import opened Mapping
  import opened Heap
  import opened FreeLists
  import opened Invariant
  import opened OwnerSlots
  import opened Blocks
  import opened Runs
  import opened Tlsf
  import opened TrashArray

  const PROC: nat := 1
  const REGFN: nat := 2
  const REQUEST: nat := 3
  const POOL_SIZE: nat := 1024

  // ---------------------------------------------------------------- what happens to one block

  datatype Fate = Keeps | Marks | Loses(uid: nat) | Noted(uid: nat)

  /** `first` is the first used owner slot; uid 0 asks for the blocks with the dc mark. */
  function FateOf(e: Entry, first: nat, uid: nat, who: Destructor): Fate {
    if !(if uid == 0 then e.dc else uid in e.owners) then Keeps
    else ActOf(e, if uid == 0 then first else uid, who)
  }

  /** What the destructor does to a block that the walk matched. */
  function ActOf(e: Entry, match_uid: nat, who: Destructor): Fate {
    match who
    case OnExit(held) =>
      if e.dtype == PROC || e.dtype == REGFN then Keeps
      else if e.dtype == REQUEST then (if e.dc then Keeps else Marks)
      else if held then Noted(match_uid)
      else Loses(match_uid)
    case Collector =>
      if e.dtype == PROC || e.dtype == REGFN || e.dtype == REQUEST then (if e.dc then Noted(match_uid) else Keeps)
      else Loses(match_uid)
  }

  function Survives(e: Entry, f: Fate): bool {
    !(f.Loses? && e.owners <= {f.uid})
  }

  function Treated(e: Entry, f: Fate): Entry {
    match f
    case Loses(u) => e.(owners := e.owners - {u})
    case Marks => e.(dc := true)
    case _ => e
  }

  /** The first owner slot of every block, as the headers hold it. */
  ghost function Firsts(mem: seq<Line>, m: map<nat, Entry>): map<nat, nat> {
    map b | b in m :: if b < |mem| then UidFirst(mem[b].uid, 0) else 0
  }

  /** The blocks below p have met their fate, the others are as they were. */
  ghost function Upto(m: map<nat, Entry>, first: map<nat, nat>, uid: nat, who: Destructor, p: nat): map<nat, Entry>
    requires m.Keys <= first.Keys
  {
    map b | b in m && (b >= p || Survives(m[b], FateOf(m[b], first[b], uid, who)))
      :: if b >= p then m[b] else Treated(m[b], FateOf(m[b], first[b], uid, who))
  }

  /** The blocks below p that the walk notes. */
  ghost function ToNote(m: map<nat, Entry>, first: map<nat, nat>, uid: nat, who: Destructor, p: nat): set<nat>
    requires m.Keys <= first.Keys
  {
    set b | b in m && b < p && FateOf(m[b], first[b], uid, who).Noted?
  }

  /** The notes of all blocks below p that are to be noted, each once, in address order. */
  ghost predicate Listed(l: seq<Note>, m: map<nat, Entry>, first: map<nat, nat>, uid: nat, who: Destructor, p: nat)
    requires m.Keys <= first.Keys
  {
    && (forall i :: 0 <= i < |l| ==>
          && l[i].b in m && l[i].b < p
          && FateOf(m[l[i].b], first[l[i].b], uid, who) == Noted(l[i].uid)
          && l[i].dtype == m[l[i].b].dtype)
    && InOrder(l)
    && (forall b :: b in ToNote(m, first, uid, who, p) ==> Mentions(l, b))
    && |ToNote(m, first, uid, who, p)| == |l|
  }

  /** The user data after noting `all`. */
  ghost predicate Holding(n: Notes, all: seq<Note>, who: Destructor, memory: seq<bool>) {
    n == Filled(all, who, memory).(marked := n.marked)
  }

  // ---------------------------------------------------------------- headers further on

  /** What no release of another block changes in a header, current or stale. */
  predicate SameTag(l: Line, m: Line) {
    m == l.(prev := m.prev, next := m.next, prevFree := m.prevFree, prevSize := m.prevSize)
  }

  ghost predicate TagsFrom(a: seq<Line>, c: seq<Line>, p: nat) {
    |a| == |c| && forall u :: p <= u < |a| ==> SameTag(a[u], c[u])
  }

  lemma TagsTrans(a: seq<Line>, b: seq<Line>, c: seq<Line>, p: nat)
    requires TagsFrom(a, b, p) && TagsFrom(b, c, p)
    ensures TagsFrom(a, c, p)
  {
  }

  lemma TagsLater(a: seq<Line>, c: seq<Line>, p: nat, q: nat)
    requires TagsFrom(a, c, p) && p <= q
    ensures TagsFrom(a, c, q)
  {
  }

  /** Writing the list links of a unit keeps every tag. */
  lemma LinkKeepsTags(h: Heap, u: nat, prev: Ptr, next: Ptr)
    ensures TagsFrom(h.mem, Put(h, u, Get(h, u).(prev := prev, next := next)).mem, 0)
  {
  }

  lemma UnlinkKeepsTags(h: Heap, b: nat, k: nat)
    requires k < CLASSES
    ensures TagsFrom(h.mem, Unlink(h, b, k).mem, 0)
  {
    hide SameTag, TagsFrom, Put, Get;
    var l := Get(h, b);
    var h1 := match l.prev
      case At(p) => Put(h, p, Get(h, p).(next := l.next))
      case Null => SetHead(h, k, l.next);
    NoTags(h.mem, 0);
    if l.prev.At? { LinkKeepsTags(h, l.prev.u, Get(h, l.prev.u).prev, l.next); }
    if Get(h1, b).next.At? {
      var n := Get(h1, b).next.u;
      LinkKeepsTags(h1, n, Get(h1, b).prev, Get(h1, n).next);
      TagsTrans(h.mem, h1.mem, Unlink(h, b, k).mem, 0);
    }
  }

  lemma LinkFirstKeepsTags(h: Heap, b: nat, k: nat)
    requires k < CLASSES
    ensures TagsFrom(h.mem, LinkFirst(h, b, k).mem, 0)
  {
    hide SameTag, TagsFrom, Put, Get;
    var head := h.matrix[k];
    var h1 := Put(h, b, Get(h, b).(prev := Null, next := head));
    LinkKeepsTags(h, b, Null, head);
    if head.At? {
      LinkKeepsTags(h1, head.u, At(b), Get(h1, head.u).next);
      TagsTrans(h.mem, h1.mem, LinkFirst(h, b, k).mem, 0);
    }
  }

  lemma ListsKeepTags(h: Heap, b: nat, k: nat)
    requires k < CLASSES
    ensures TagsFrom(h.mem, RemoveFree(h, b, k).mem, 0) && TagsFrom(h.mem, InsertFree(h, b, k).mem, 0)
  {
    hide Unlink, LinkFirst, TagsFrom;
    UnlinkKeepsTags(h, b, k);
    LinkFirstKeepsTags(h, b, k);
  }

  lemma PrevKeepsTags(h: Heap, b: nat)
    ensures CoalescePrev(h, b).b <= b && TagsFrom(h.mem, CoalescePrev(h, b).h.mem, b + 1)
  {
    hide RemoveFree, Class;
    if MergesBack(h, b) {
      var p := b - Get(h, b).prevSize;
      ListsKeepTags(h, p, Class(Get(h, p).size));
    }
  }

  lemma NextKeepsTags(h: Heap, b: nat)
    ensures TagsFrom(h.mem, CoalesceFree(h, b).mem, b + 1)
  {
    hide RemoveFree, Class;
    ListsKeepTags(h, NextOf(h, b), Class(Get(h, NextOf(h, b)).size));
  }

  lemma CoalescedKeepsTags(h: Heap, b: nat)
    ensures TagsFrom(h.mem, Coalesced(h, b).h.mem, b + 1)
  {
    hide CoalescePrev, CoalesceFree, InsertFree, Class, MarkFree, TagsFrom;
    var m := CoalescePrev(h, b);
    PrevKeepsTags(h, b);
    var g := CoalesceFree(m.h, m.b);
    NextKeepsTags(m.h, m.b);
    TagsLater(m.h.mem, g.mem, m.b + 1, b + 1);
    TagsTrans(h.mem, m.h.mem, g.mem, b + 1);
    var f := MarkFree(g, m.b);
    MarkKeepsTags(g, m.b);
    TagsLater(g.mem, f.mem, m.b + 1, b + 1);
    TagsTrans(h.mem, g.mem, f.mem, b + 1);
    var k := Class(Get(f, m.b).size);
    ListsKeepTags(f, m.b, k);
    TagsLater(f.mem, InsertFree(f, m.b, k).mem, 0, b + 1);
    TagsTrans(h.mem, f.mem, InsertFree(f, m.b, k).mem, b + 1);
  }

  lemma MarkKeepsTags(h: Heap, b: nat)
    ensures TagsFrom(h.mem, MarkFree(h, b).mem, b + 1)
  {
  }

  lemma {:induction false} DropKeepsTags(h: Heap, b: nat, uid: nat, i: nat)
    requires DropUid(h, b, uid, i).Go?
    ensures TagsFrom(h.mem, DropUid(h, b, uid, i).h.mem, b + 1)
    decreases OWNERS - i
  {
    hide Recover, Read;
    if i < OWNERS {
      if Get(h, b).uid[i] == uid {
        var h1 := Push(h, UidAt(b, i / 4)).h;
        DropKeepsTags(Put(h1, b, Get(h1, b).(uid := Get(h1, b).uid[i := 0])), b, uid, i + 1);
      } else {
        DropKeepsTags(h, b, uid, i + 1);
      }
    }
  }

  lemma ReleaseKeepsTags(h: Heap, b: nat)
    requires Release(h, b).Go?
    ensures TagsFrom(h.mem, Release(h, b).h.mem, b + 1)
  {
    hide Coalesced, Recover, Read;
    var h1 := Push(h, UsedAt).h;
    CoalescedKeepsTags(h1.(used := h1.used - Payload(h1, b)), b);
  }

  /**
   * Every header behind a freed block keeps its size, flag, signature, owners and type, also when
   * coalescing has turned it into payload: a walk may go on from where it was.
   */
  lemma FreeKeepsTags(h: Heap, b: nat, uid: nat)
    requires Free(h, b, uid).err != BulOverflow
    ensures TagsFrom(h.mem, Free(h, b, uid).h.mem, b + 1)
  {
    hide DropUid, Release, UidFind, UidCount, CheckBlock, TagsFrom;
    NoTags(h.mem, b + 1);
    if uid != 0 && CheckBlock(h, b) == Ok && UidFind(Get(h, b).uid, uid, 0) < OWNERS {
      DropKeepsTags(h, b, uid, 0);
      var d := DropUid(h, b, uid, 0).h;
      if UidCount(Get(d, b).uid, 0) == 0 {
        ReleaseKeepsTags(d, b);
        TagsTrans(h.mem, d.mem, Release(d, b).h.mem, b + 1);
      }
    }
  }

  lemma NoTags(a: seq<Line>, p: nat)
    ensures TagsFrom(a, a, p)
  {
  }

  // ---------------------------------------------------------------- one visit

  ghost predicate Faces(h: Heap, b: nat, f: Fate) {
    b in View(h) && (f.Loses? ==> f.uid in View(h)[b].owners)
  }

  function Fated(h: Heap, b: nat, f: Fate): Heap {
    match f
    case Loses(u) => Free(h, b, u).h
    case Marks => SetDc(h, b, true).h
    case _ => h
  }

  function Visited(m: map<nat, Entry>, b: nat, f: Fate): map<nat, Entry>
    requires b in m
  {
    if Survives(m[b], f) then m[b := Treated(m[b], f)] else m - {b}
  }

  lemma MeetFate(h: Heap, b: nat, f: Fate)
    requires Good(h) && Faces(h, b, f)
    ensures Good(Fated(h, b, f)) && View(Fated(h, b, f)) == Visited(View(h), b, f)
    ensures TagsFrom(h.mem, Fated(h, b, f).mem, b + 1)
  {
    hide Good, View, Free, SetDc, Carries, Legal, TagsFrom, Tight;
    NoTags(h.mem, b + 1);
    ViewHeld(h);
    match f
    case Loses(u) =>
      AlwaysServes(h, DoFree(b, u));
      LegalFree(h, b, u);
      FreeAccepted(h, b, u);
      FreeKeepsTags(h, b, u);
      assert View(h)[b].owners == {u} <==> View(h)[b].owners <= {u};
    case Marks =>
      AlwaysServes(h, DoSetDc(b, true));
      LegalFree(h, b, 0);
      SetDcKeepsTags(h, b, true);
    case _ =>
      assert View(h)[b := View(h)[b]] == View(h);
  }

  lemma FreeAccepted(h: Heap, b: nat, u: nat)
    requires Good(h) && b in View(h) && Serves(h, DoFree(b, u), Apply(h, DoFree(b, u)))
    ensures Free(h, b, u).err != BulOverflow
  {
    hide Good, View, Free, Carries, Tight, CheckBlock;
    LegalFree(h, b, u);
  }

  lemma SetDcKeepsTags(h: Heap, b: nat, dc: bool)
    ensures TagsFrom(h.mem, SetDc(h, b, dc).h.mem, b + 1)
  {
  }

  // ---------------------------------------------------------------- the walk

  ghost function EntryFate(h: Heap, b: nat, uid: nat, who: Destructor): Fate
    requires b in View(h) && b < |h.mem|
  {
    FateOf(View(h)[b], UidFirst(h.mem[b].uid, 0), uid, who)
  }

  /**
   * The walk over h0 has reached p and the heap is now h: what lies below p has met its fate, the
   * rest is as it was, and p is the next block boundary of h0.
   */
  ghost predicate Reached(h0: Heap, h: Heap, uid: nat, who: Destructor, p: nat, l: seq<Note>) {
    && Good(h0) && Good(h)
    && (p == |h0.mem| || p in Walk(h0.mem, 0))
    && TagsFrom(h0.mem, h.mem, p)
    && View(h) == Upto(View(h0), Firsts(h0.mem, View(h0)), uid, who, p)
    && Listed(l, View(h0), Firsts(h0.mem, View(h0)), uid, who, p)
  }

  lemma NonEmpty(h: Heap)
    requires Good(h)
    ensures |h.mem| > 0 && 0 in Walk(h.mem, 0)
  {
    hide Lists, Bits, Clients, PrevSizes, View, Walk, Headers, Chained, Apart;
    var s := ShapeOf(h);
  }

  lemma StartsReached(h: Heap, uid: nat, who: Destructor)
    requires Good(h)
    ensures Reached(h, h, uid, who, 0, [])
  {
    hide View, Good, Walk;
    NonEmpty(h);
    NoTags(h.mem, 0);
    assert ToNote(View(h), Firsts(h.mem, View(h)), uid, who, 0) == {};
    assert View(h) == Upto(View(h), Firsts(h.mem, View(h)), uid, who, 0);
  }

  /** A live block of the view read through its header. */
  lemma ViewHeader(h: Heap, b: nat)
    requires Good(h)
    ensures b in View(h) <==> b in Walk(h.mem, 0) && !h.mem[b].free
    ensures b in View(h) ==> b < |h.mem| && View(h)[b] == EntryOf(h.mem[b])
  {
    hide Walk;
  }

  /** At p the walk finds a header of h0, current or stale, with its size, flag and owners intact. */
  lemma ReachedHeader(h0: Heap, h: Heap, uid: nat, who: Destructor, p: nat, l: seq<Note>)
    requires Reached(h0, h, uid, who, p, l) && p < |h0.mem|
    ensures |h.mem| == |h0.mem| && SameTag(h0.mem[p], h.mem[p])
    ensures h.mem[p].sig == MAGIC48 && 0 < h.mem[p].size <= |h.mem| - p
    ensures p + h.mem[p].size == |h.mem| || p + h.mem[p].size in Walk(h0.mem, 0)
    ensures p in View(h) <==> p in View(h0)
    ensures p in View(h0) <==> !h.mem[p].free
    ensures p in View(h0) ==> View(h)[p] == View(h0)[p] == EntryOf(h.mem[p])
    ensures p in View(h0) ==> Firsts(h0.mem, View(h0))[p] == UidFirst(h.mem[p].uid, 0)
    ensures forall b :: b in View(h0) && p < b ==> p + h.mem[p].size <= b
  {
    hide Walk, View, Good, Listed;
    ViewHeader(h0, p);
    TilesExactly(h0, p);
    forall b | b in View(h0) && p < b ensures p + h.mem[p].size <= b {
      ViewHeader(h0, b);
    }
  }

  lemma ListedSkips(l: seq<Note>, m: map<nat, Entry>, first: map<nat, nat>, uid: nat, who: Destructor, p: nat, q: nat)
    requires m.Keys <= first.Keys && Listed(l, m, first, uid, who, p) && p < q
    requires forall b :: b in m && p <= b < q ==> b == p && !FateOf(m[b], first[b], uid, who).Noted?
    ensures Listed(l, m, first, uid, who, q)
  {
    assert ToNote(m, first, uid, who, q) == ToNote(m, first, uid, who, p);
  }

  lemma ListedAdds(l: seq<Note>, m: map<nat, Entry>, first: map<nat, nat>, uid: nat, who: Destructor, p: nat, q: nat)
    requires m.Keys <= first.Keys && Listed(l, m, first, uid, who, p) && p < q
    requires forall b :: b in m && p < b ==> q <= b
    requires p in m && FateOf(m[p], first[p], uid, who).Noted?
    ensures Listed(l + [Note(p, m[p].dtype, FateOf(m[p], first[p], uid, who).uid)], m, first, uid, who, q)
  {
    hide FateOf, Mentions;
    var note := Note(p, m[p].dtype, FateOf(m[p], first[p], uid, who).uid);
    assert ToNote(m, first, uid, who, q) == ToNote(m, first, uid, who, p) + {p};
    MentionsOne(l, note);
  }

  lemma UptoStep(m: map<nat, Entry>, first: map<nat, nat>, uid: nat, who: Destructor, p: nat, q: nat)
    requires m.Keys <= first.Keys && p < q && forall b :: b in m && p < b ==> q <= b
    ensures p !in m ==> Upto(m, first, uid, who, q) == Upto(m, first, uid, who, p)
    ensures p in m ==> p in Upto(m, first, uid, who, p)
    ensures p in m ==>
      Upto(m, first, uid, who, q) == Visited(Upto(m, first, uid, who, p), p, FateOf(m[p], first[p], uid, who))
  {
  }

  /** The walk skips a free header. */
  lemma ReachedSkips(h0: Heap, h: Heap, uid: nat, who: Destructor, p: nat, l: seq<Note>)
    requires Reached(h0, h, uid, who, p, l) && p < |h0.mem| == |h.mem| && h.mem[p].free
    ensures Reached(h0, h, uid, who, p + h.mem[p].size, l)
  {
    hide Walk, View, Good, FateOf, Firsts;
    ReachedHeader(h0, h, uid, who, p, l);
    var q := p + h.mem[p].size;
    var m, first := View(h0), Firsts(h0.mem, View(h0));
    KeysFirsts(h0.mem, m);
    UptoStep(m, first, uid, who, p, q);
    TagsLater(h0.mem, h.mem, p, q);
    ListedSkips(l, m, first, uid, who, p, q);
  }

  lemma KeysFirsts(mem: seq<Line>, m: map<nat, Entry>)
    ensures m.Keys == Firsts(mem, m).Keys
  {
  }

  /** The walk treats a live block and goes on behind it. */
  lemma ReachedVisits(h0: Heap, h: Heap, uid: nat, who: Destructor, p: nat, l: seq<Note>)
    requires Reached(h0, h, uid, who, p, l) && p < |h0.mem| == |h.mem| && !h.mem[p].free
    ensures p in View(h)
    ensures var f := EntryFate(h, p, uid, who);
            Reached(h0, Fated(h, p, f), uid, who, p + h.mem[p].size,
                    if f.Noted? then l + [Note(p, View(h)[p].dtype, f.uid)] else l)
  {
    hide Walk, View, Good, FateOf, Firsts, Listed, TagsFrom, Upto, Fated, Visited;
    ReachedHeader(h0, h, uid, who, p, l);
    var q := p + h.mem[p].size;
    var m, first := View(h0), Firsts(h0.mem, View(h0));
    KeysFirsts(h0.mem, m);
    UptoStep(m, first, uid, who, p, q);
    var f := EntryFate(h, p, uid, who);
    FateFaces(h, p, uid, who);
    MeetFate(h, p, f);
    TagsLater(h0.mem, h.mem, p, q);
    TagsLater(h.mem, Fated(h, p, f).mem, p + 1, q);
    TagsTrans(h0.mem, h.mem, Fated(h, p, f).mem, q);
    if f.Noted? {
      ListedAdds(l, m, first, uid, who, p, q);
    } else {
      ListedSkips(l, m, first, uid, who, p, q);
    }
  }

  lemma FateFaces(h: Heap, b: nat, uid: nat, who: Destructor)
    requires Good(h) && b in View(h) && b < |h.mem|
    ensures Faces(h, b, EntryFate(h, b, uid, who))
  {
    hide View, Good, Walk;
    ViewHeader(h, b);
    ViewHeld(h);
    FirstOwner(h.mem[b].uid);
  }

  lemma FirstOwner(s: Owners)
    requires OwnerSet(s) != {}
    ensures UidFirst(s, 0) in OwnerSet(s)
  {
    FirstIsOwner(s, 0);
    var u :| u in OwnerSet(s);
    var i :| 0 <= i < OWNERS && s[i] == u;
  }

  // ---------------------------------------------------------------- the walk in place

  const ENOMEM: int := 12

  /** Either destructor on the live block b: a negative result stops the walk, a positive one restarts it. */
  method Destroy(a: Allocator, b: nat, match_uid: nat, who: Destructor, notes: Notes, memory: seq<bool>)
    returns (rc: int, n: Notes)
    requires a.Valid()
    modifies a.Footprint()
    ensures a.Valid()
    ensures who.Collector? && |notes.list| >= POOL_SIZE ==> rc == -ENOMEM && n == notes && a.State() == old(a.State())
    ensures who.OnExit? || |notes.list| < POOL_SIZE ==>
            var e := EntryOf(old(Get(a.State(), b)));
            var f := ActOf(e, match_uid, who);
            && a.State() == Fated(old(a.State()), b, f)
            && n == (if f.Noted? then AddNote(notes, Note(b, e.dtype, f.uid), who, memory)
                     else if f.Marks? then notes.(marked := notes.marked + 1) else notes)
            && rc == (if f.Loses? && who.OnExit? then 1
                      else if f.Noted? && who.Collector? && |n.list| >= POOL_SIZE then -ENOMEM
                      else 0)
  {
    hide Free, SetDc, Serves, OwnerSet;
    var dtype, dc := a.Look(b).dtype, a.Look(b).dc;
    rc, n := 0, notes;
    match who {
      case OnExit(held) =>
        if dtype == PROC || dtype == REGFN {
        } else if dtype == REQUEST {
          if !dc {
            var _ := a.MarkDc(b, true);
            n := n.(marked := n.marked + 1);
          }
        } else if held {
          n := AddNote(n, Note(b, dtype, match_uid), who, memory);
        } else {
          var _ := a.ReleaseOwner(b, match_uid);
          rc := 1;
        }
      case Collector =>
        if |n.list| >= POOL_SIZE { return -ENOMEM, n; }
        if dtype == PROC || dtype == REGFN || dtype == REQUEST {
          if dc {
            n := AddNote(n, Note(b, dtype, match_uid), who, memory);
            if |n.list| >= POOL_SIZE { rc := -ENOMEM; }
          }
        } else {
          var _ := a.ReleaseOwner(b, match_uid);
        }
    }
  }

  /** The blocks below p that the walk marks for deferred cleaning. */
  ghost function MarkedBelow(m: map<nat, Entry>, uid: nat, who: Destructor, p: nat): set<nat> {
    set b | b in m && b < p && FateOf(m[b], 0, uid, who) == Marks
  }

  lemma MarkedStep(m: map<nat, Entry>, uid: nat, who: Destructor, p: nat, q: nat, first: nat)
    requires p < q && forall b :: b in m && p < b ==> q <= b
    ensures p in m && FateOf(m[p], first, uid, who) == Marks ==>
      |MarkedBelow(m, uid, who, q)| == |MarkedBelow(m, uid, who, p)| + 1
    ensures !(p in m && FateOf(m[p], first, uid, who) == Marks) ==>
      |MarkedBelow(m, uid, who, q)| == |MarkedBelow(m, uid, who, p)|
  {
    var x, y := MarkedBelow(m, uid, who, p), MarkedBelow(m, uid, who, q);
    if p in m && FateOf(m[p], first, uid, who) == Marks {
      assert y == x + {p};
    } else {
      assert y == x;
    }
  }

  lemma NoneMarked(m: map<nat, Entry>, uid: nat, who: Destructor)
    ensures |MarkedBelow(m, uid, who, 0)| == 0
  {
  }

  const BLOCK_CORRUPTED: int := 4

  /** Why a pass over the heap ended at q. */
  ghost predicate PassEnds(h0: Heap, h: Heap, uid: nat, who: Destructor, q: nat, again: bool, rc: int, l: seq<Note>) {
    if again then rc == 0 && LastLost(h0, uid, who, q)
    else if rc == 0 then q == |h0.mem|
    else rc == -ENOMEM && who.Collector? && |l| == POOL_SIZE
  }

  /** The walk stopped right behind a block that lost its owner. */
  ghost predicate LastLost(h0: Heap, uid: nat, who: Destructor, q: nat) {
    who.OnExit? && exists b :: b in View(h0) && b < q && FateOf(View(h0)[b], 0, uid, who).Loses?
  }

  /** The walk at the live block p: match it, and let the destructor deal with a match. */
  method Meet(
    a: Allocator, p: nat, uid: nat, who: Destructor, notes: Notes, memory: seq<bool>, ghost h0: Heap,
    ghost l0: seq<Note>)
    returns (rc: int, n: Notes, ghost all: seq<Note>)
    requires a.Valid() && p < a.mem.Length == |h0.mem| && !a.Look(p).free
    requires Reached(h0, a.State(), uid, who, p, l0)
    requires Holding(notes, l0, who, memory) && (who.Collector? ==> |notes.list| < POOL_SIZE)
    modifies a.Footprint()
    ensures a.Valid() && p in View(h0)
    ensures Reached(h0, a.State(), uid, who, p + old(a.Look(p)).size, all)
    ensures var f := FateOf(View(h0)[p], UidFirst(old(a.Look(p)).uid, 0), uid, who);
            && n.marked == notes.marked + (if f == Marks then 1 else 0)
            && rc == (if f.Loses? && who.OnExit? then 1
                      else if f.Noted? && who.Collector? && |n.list| >= POOL_SIZE then -ENOMEM
                      else 0)
    ensures who.Collector? && rc == 0 ==> |n.list| < POOL_SIZE
    ensures Holding(n, all, who, memory) && (who.Collector? ==> |n.list| <= POOL_SIZE)
  {
    hide Reached, View, Good, OwnerSet, Free, SetDc, Walk, Firsts, ActOf;
    ghost var h := a.State();
    var l := a.Look(p);
    ReachedHeader(h0, h, uid, who, p, l0);
    ReachedVisits(h0, h, uid, who, p, l0);
    MatchesOwner(l, uid);
    var i := a.FindUid(p, uid);
    rc, n, all := 0, notes, l0;
    if (if uid == 0 then l.dc else i < OWNERS) {
      ghost var f := EntryFate(h, p, uid, who);
      ghost var note := if f.Noted? then Note(p, EntryOf(l).dtype, f.uid) else Note(0, 0, 0);
      FilledOne(l0, note, who, memory);
      AddMarked(Filled(l0, who, memory), notes.marked, note, who, memory);
      rc, n := Destroy(a, p, if uid == 0 then UidFirst(l.uid, 0) else uid, who, n, memory);
      if f.Noted? { all := l0 + [note]; }
    }
  }

  lemma AddMarked(n: Notes, marked: nat, note: Note, who: Destructor, memory: seq<bool>)
    ensures AddNote(n.(marked := marked), note, who, memory) == AddNote(n, note, who, memory).(marked := marked)
  {
  }

  /** One pass of the walk, from the first block until its end, a restart or an error. */
  method Sweep(a: Allocator, uid: nat, who: Destructor, notes: Notes, memory: seq<bool>)
    returns (again: bool, rc: int, n: Notes, ghost q: nat, ghost all: seq<Note>)
    requires a.Valid() && Good(a.State()) && Holding(notes, [], who, memory)
    requires who.OnExit? ==> uid != 0
    modifies a.Footprint()
    ensures a.Valid() && Reached(old(a.State()), a.State(), uid, who, q, all)
    ensures Holding(n, all, who, memory)
    ensures PassEnds(old(a.State()), a.State(), uid, who, q, again, rc, n.list)
    ensures n.marked == notes.marked + |MarkedBelow(old(View(a.State())), uid, who, q)|
  {
    hide Reached, View, Good, OwnerSet, FateOf, MarkedBelow, Firsts, SameTag, UidFirst, Walk, ToNote, Upto, Listed;
    ghost var h0 := a.State();
    StartsReached(h0, uid, who);
    NoneMarked(View(h0), uid, who);
    n, again, rc, all := notes, false, 0, [];
    var p := 0;
    q := 0;
    while p < a.mem.Length
      invariant a.Valid() && q == p && a.mem.Length == |h0.mem|
      invariant Reached(h0, a.State(), uid, who, p, all)
      invariant Holding(n, all, who, memory) && (who.Collector? ==> |n.list| < POOL_SIZE)
      invariant n.marked == notes.marked + |MarkedBelow(View(h0), uid, who, p)|
      invariant p <= a.mem.Length
      decreases a.mem.Length - p
    {
      ReachedHeader(h0, a.State(), uid, who, p, all);
      var l := a.Look(p);
      if l.sig != MAGIC48 || l.size == 0 || l.size > a.mem.Length - p {
        rc := -BLOCK_CORRUPTED;
        break;
      }
      MarkedStep(View(h0), uid, who, p, p + l.size, UidFirst(l.uid, 0));
      if l.free {
        ReachedSkips(h0, a.State(), uid, who, p, all);
      } else {
        rc, n, all := Meet(a, p, uid, who, n, memory, h0, all);
        q := p + l.size;
        if rc != 0 {
          again := rc > 0;
          LostHere(View(h0), p, UidFirst(l.uid, 0), uid, who);
          rc := if again then 0 else rc;
          break;
        }
      }
      p := p + l.size;
      q := p;
    }
  }

  lemma LostHere(m: map<nat, Entry>, b: nat, first: nat, uid: nat, who: Destructor)
    requires b in m && (who.OnExit? ==> uid != 0)
    ensures who.OnExit? && FateOf(m[b], first, uid, who).Loses? ==> FateOf(m[b], 0, uid, who).Loses?
  {
  }

  lemma MatchesOwner(l: Line, uid: nat)
    ensures uid != 0 ==> (UidFind(l.uid, uid, 0) < OWNERS <==> uid in EntryOf(l).owners)
  {
    if uid != 0 { FindIsMember(l.uid, uid); }
  }

  // ---------------------------------------------------------------- all passes

  /** The whole cleanup after a process, in one step. */
  ghost function Cleaned(m: map<nat, Entry>, uid: nat, who: Destructor): map<nat, Entry> {
    map b | b in m && Survives(m[b], FateOf(m[b], 0, uid, who)) :: Treated(m[b], FateOf(m[b], 0, uid, who))
  }

  ghost function Pending(m: map<nat, Entry>, uid: nat, who: Destructor): set<nat> {
    set b | b in m && FateOf(m[b], 0, uid, who).Loses?
  }

  ghost function ToMark(m: map<nat, Entry>, uid: nat, who: Destructor): set<nat> {
    set b | b in m && FateOf(m[b], 0, uid, who) == Marks
  }

  /** A block that met its fate and survived has nothing more to expect. */
  lemma TreatedOnce(e: Entry, first: nat, uid: nat, who: Destructor)
    requires uid != 0 && who.OnExit?
    ensures FateOf(e, first, uid, who) == FateOf(e, 0, uid, who)
    ensures var f := FateOf(e, 0, uid, who); var d := Treated(e, f); var g := FateOf(d, 0, uid, who);
            && !g.Loses? && !g.Marks?
            && Survives(d, g) && Treated(d, g) == d
  {
  }

  /** What one pass leaves to do, and what it has done, make up the whole. */
  lemma PassProgress(m: map<nat, Entry>, first: map<nat, nat>, uid: nat, who: Destructor, q: nat)
    requires m.Keys <= first.Keys && uid != 0 && who.OnExit?
    ensures var n := Upto(m, first, uid, who, q);
            && Cleaned(n, uid, who) == Cleaned(m, uid, who)
            && |ToMark(m, uid, who)| == |MarkedBelow(m, uid, who, q)| + |ToMark(n, uid, who)|
            && (forall b :: b in Pending(n, uid, who) ==> b in Pending(m, uid, who) && b >= q)
  {
    hide FateOf, Treated, Survives;
    UptoFates(m, first, uid, who, q);
    MarksAdd(m, first, uid, who, q);
  }

  /** The blocks above q await what they awaited, those below have nothing to expect. */
  lemma UptoFates(m: map<nat, Entry>, first: map<nat, nat>, uid: nat, who: Destructor, q: nat)
    requires m.Keys <= first.Keys && uid != 0 && who.OnExit?
    ensures var n := Upto(m, first, uid, who, q);
            && (forall b :: b in m ==> FateOf(m[b], first[b], uid, who) == FateOf(m[b], 0, uid, who))
            && (forall b :: b in n && b < q ==>
                  && b in m
                  && !FateOf(n[b], 0, uid, who).Loses? && !FateOf(n[b], 0, uid, who).Marks?
                  && Survives(n[b], FateOf(n[b], 0, uid, who)) && Treated(n[b], FateOf(n[b], 0, uid, who)) == n[b])
  {
    hide FateOf, Treated, Survives;
    var n := Upto(m, first, uid, who, q);
    forall b | b in m
      ensures FateOf(m[b], first[b], uid, who) == FateOf(m[b], 0, uid, who)
      ensures b in n && b < q ==> !FateOf(n[b], 0, uid, who).Loses? && !FateOf(n[b], 0, uid, who).Marks?
      ensures b in n && b < q ==>
        Survives(n[b], FateOf(n[b], 0, uid, who)) && Treated(n[b], FateOf(n[b], 0, uid, who)) == n[b]
    {
      TreatedOnce(m[b], first[b], uid, who);
    }
  }

  lemma MarksAdd(m: map<nat, Entry>, first: map<nat, nat>, uid: nat, who: Destructor, q: nat)
    requires m.Keys <= first.Keys && uid != 0 && who.OnExit?
    ensures |ToMark(m, uid, who)| == |MarkedBelow(m, uid, who, q)| + |ToMark(Upto(m, first, uid, who, q), uid, who)|
  {
    hide FateOf, Treated, Survives;
    UptoFates(m, first, uid, who, q);
    MarksSurvive(m, uid, who);
    var x, y := MarkedBelow(m, uid, who, q), ToMark(Upto(m, first, uid, who, q), uid, who);
    assert ToMark(m, uid, who) == x + y;
  }

  lemma MarksSurvive(m: map<nat, Entry>, uid: nat, who: Destructor)
    ensures forall b :: b in m && FateOf(m[b], 0, uid, who) == Marks ==> Survives(m[b], FateOf(m[b], 0, uid, who))
  {
  }

  lemma FewerPending(m: map<nat, Entry>, n: map<nat, Entry>, uid: nat, who: Destructor, b: nat, q: nat)
    requires b in Pending(m, uid, who) && b < q
    requires forall b :: b in Pending(n, uid, who) ==> b in Pending(m, uid, who) && b >= q
    ensures |Pending(n, uid, who)| < |Pending(m, uid, who)|
  {
    SubsetSmaller(Pending(n, uid, who), Pending(m, uid, who), b);
  }

  lemma WholePass(mem: seq<Line>, m: map<nat, Entry>, uid: nat, who: Destructor)
    requires uid != 0 && who.OnExit? && forall b :: b in m ==> b < |mem|
    ensures Upto(m, Firsts(mem, m), uid, who, |mem|) == Cleaned(m, uid, who)
  {
  }

  lemma ReachedParts(h0: Heap, h: Heap, uid: nat, who: Destructor, q: nat, l: seq<Note>)
    requires Reached(h0, h, uid, who, q, l)
    ensures Good(h) && View(h0).Keys <= Firsts(h0.mem, View(h0)).Keys
    ensures View(h) == Upto(View(h0), Firsts(h0.mem, View(h0)), uid, who, q)
    ensures Listed(l, View(h0), Firsts(h0.mem, View(h0)), uid, who, q)
    ensures |h.mem| == |h0.mem| && forall b :: b in View(h0) ==> b < |h0.mem|
  {
    hide Good, Walk;
    forall b | b in View(h0) ensures b < |h0.mem| {
      ViewHeader(h0, b);
    }
  }

  /** A process that nobody holds leaves no trash. */
  lemma NothingNoted(l: seq<Note>, m: map<nat, Entry>, first: map<nat, nat>, uid: nat, q: nat)
    requires m.Keys <= first.Keys && Listed(l, m, first, uid, OnExit(false), q)
    ensures l == []
  {
    assert ToNote(m, first, uid, OnExit(false), q) == {};
  }

  lemma OnlyUnheldLoses(h0: Heap, uid: nat, held: bool, q: nat)
    requires LastLost(h0, uid, OnExit(held), q)
    ensures !held && exists b :: b in Pending(View(h0), uid, OnExit(held)) && b < q
  {
    hide View;
    var b :| b in View(h0) && b < q && FateOf(View(h0)[b], 0, uid, OnExit(held)).Loses?;
    assert b in Pending(View(h0), uid, OnExit(held));
  }

  /** One pass for a process: a restart has released something, an end has done the rest. */
  method CleanPass(a: Allocator, uid: nat, held: bool, notes: Notes, memory: seq<bool>)
    returns (again: bool, n: Notes, ghost all: seq<Note>)
    requires a.Valid() && Good(a.State()) && uid != 0 && Holding(notes, [], OnExit(held), memory)
    modifies a.Footprint()
    ensures a.Valid() && Good(a.State()) && |a.State().mem| == old(|a.State().mem|)
    ensures var who := OnExit(held); var m, m' := old(View(a.State())), View(a.State());
            && Cleaned(m', uid, who) == Cleaned(m, uid, who)
            && (!again ==> m' == Cleaned(m, uid, who) && n.marked == notes.marked + |ToMark(m, uid, who)|)
            && (again ==> |Pending(m', uid, who)| < |Pending(m, uid, who)|)
            && (again ==> n.marked + |ToMark(m', uid, who)| == notes.marked + |ToMark(m, uid, who)|)
    ensures held ==> !again
    ensures var m, mem := old(View(a.State())), old(a.State().mem);
            && m.Keys <= Firsts(mem, m).Keys
            && (if held then Listed(all, m, Firsts(mem, m), uid, OnExit(held), |mem|) else all == [])
    ensures Holding(n, all, OnExit(held), memory)
  {
    hide Reached, View, Good, Cleaned, Upto, FateOf, Listed, Firsts, LastLost, MarkedBelow, ToMark, Pending;
    ghost var h0 := a.State();
    ghost var who := OnExit(held);
    var rc: int;
    ghost var q;
    again, rc, n, q, all := Sweep(a, uid, OnExit(held), notes, memory);
    ghost var h := a.State();
    ghost var m, first := View(h0), Firsts(h0.mem, View(h0));
    ReachedParts(h0, h, uid, who, q, all);
    PassProgress(m, first, uid, who, q);
    if !held { NothingNoted(all, m, first, uid, q); }
    if again {
      OnlyUnheldLoses(h0, uid, held, q);
      ghost var b :| b in Pending(m, uid, who) && b < q;
      FewerPending(m, View(h), uid, who, b, q);
    } else {
      WholePass(h0.mem, m, uid, who);
      AllMarked(m, uid, who, q);
    }
  }

  lemma AllMarked(m: map<nat, Entry>, uid: nat, who: Destructor, q: nat)
    requires forall b :: b in m ==> b < q
    ensures MarkedBelow(m, uid, who, q) == ToMark(m, uid, who)
  {
  }

  /**
   * tlsf_free_uid_blocks after a dead process. Without a hold its restarts end, and then every block
   * has met its fate; under a hold one pass notes the user blocks instead of freeing them. `memory` says
   * which attempts to enlarge the trash array succeed: the notes are those of all these blocks if and only
   * if as many attempts succeed as their number needs.
   */
  method CleanUpAfter(a: Allocator, uid: nat, held: bool, memory: seq<bool>) returns (n: Notes, ghost all: seq<Note>)
    requires a.Valid() && Good(a.State()) && uid != 0
    modifies a.Footprint()
    ensures a.Valid() && Good(a.State())
    ensures View(a.State()) == Cleaned(old(View(a.State())), uid, OnExit(held))
    ensures n.marked == |ToMark(old(View(a.State())), uid, OnExit(held))|
    ensures var m, mem := old(View(a.State())), old(a.State().mem);
            && m.Keys <= Firsts(mem, m).Keys
            && (if held then Listed(all, m, Firsts(mem, m), uid, OnExit(held), |mem|) else all == [])
            && (held ==> (n.lost == 0 <==>
                            Granted(memory, Growths(|ToNote(m, Firsts(mem, m), uid, OnExit(held), |mem|)|))))
    ensures Holding(n, all, OnExit(held), memory)
    ensures n.lost == 0 <==> n.list == all
  {
    hide View, Good, Cleaned, FateOf, Listed, ToMark, Pending, Firsts, Holding;
    ghost var h0 := a.State();
    ghost var who := OnExit(held);
    var again: bool;
    NothingYet(who, memory, NO_NOTES);
    again, n, all := CleanPass(a, uid, held, NO_NOTES, memory);
    while again
      invariant a.Valid() && Good(a.State())
      invariant again ==> !held && all == []
      invariant Holding(n, all, who, memory)
      invariant Cleaned(View(a.State()), uid, who) == Cleaned(View(h0), uid, who)
      invariant again ==> n.marked + |ToMark(View(a.State()), uid, who)| == |ToMark(View(h0), uid, who)|
      invariant !again ==> View(a.State()) == Cleaned(View(h0), uid, who) && n.marked == |ToMark(View(h0), uid, who)|
      invariant View(h0).Keys <= Firsts(h0.mem, View(h0)).Keys
      invariant if held then Listed(all, View(h0), Firsts(h0.mem, View(h0)), uid, who, |h0.mem|) else all == []
      decreases again, |Pending(View(a.State()), uid, who)|
    {
      again, n, all := CleanPass(a, uid, held, n, memory);
    }
    HoldingExactly(n, all, held, memory);
    if held { ListedCount(all, View(h0), Firsts(h0.mem, View(h0)), uid, who, |h0.mem|); }
  }

  lemma NothingYet(who: Destructor, memory: seq<bool>, n: Notes)
    requires n == NO_NOTES
    ensures Holding(n, [], who, memory)
  {
  }

  lemma HoldingExactly(n: Notes, all: seq<Note>, held: bool, memory: seq<bool>)
    requires Holding(n, all, OnExit(held), memory)
    ensures n.lost == 0 <==> Granted(memory, Growths(|all|))
    ensures n.lost == 0 <==> n.list == all
  {
    FilledExactly(all, held, memory);
  }

  lemma ListedCount(l: seq<Note>, m: map<nat, Entry>, first: map<nat, nat>, uid: nat, who: Destructor, p: nat)
    requires m.Keys <= first.Keys && Listed(l, m, first, uid, who, p)
    ensures |ToNote(m, first, uid, who, p)| == |l|
  {
  }

  /** What is left of the process: no user block lists it any more, and nobody else lost anything. */
  lemma CleanedMeaning(m: map<nat, Entry>, uid: nat, b: nat)
    requires uid != 0
    ensures var n := Cleaned(m, uid, OnExit(false));
            && (b in n && uid in n[b].owners ==>
                  n[b].dtype == PROC || n[b].dtype == REGFN || (n[b].dtype == REQUEST && n[b].dc))
            && (b in m && !(m[b].owners <= {uid}) ==> b in n && n[b].owners - {uid} == m[b].owners - {uid})
            && (b in m && uid !in m[b].owners && m[b].owners != {} ==> b in n && n[b] == m[b])
            && (b in n ==> b in m && n[b].size == m[b].size && n[b].dtype == m[b].dtype && n[b].owners <= m[b].owners)
            && (b in m && b !in n ==> m[b].owners <= {uid} && m[b].dtype != REQUEST)
  {
  }

  // ---------------------------------------------------------------- the collector

  /**
   * tlsf_free_uid_blocks for the collector: one pass, in which a freed block does not stop the walk.
   * Each block behind gets its turn exactly once; only a full pool ends the pass early.
   */
  method Collect(a: Allocator) returns (rc: int, pool: Notes, ghost q: nat)
    requires a.Valid() && Good(a.State())
    modifies a.Footprint()
    ensures a.Valid() && Good(a.State())
    ensures var m, mem := old(View(a.State())), old(a.State().mem);
            && m.Keys <= Firsts(mem, m).Keys
            && View(a.State()) == Upto(m, Firsts(mem, m), 0, Collector, q)
            && Listed(pool.list, m, Firsts(mem, m), 0, Collector, q)
            && (rc == 0 ==> q == |mem|)
            && (rc != 0 ==> rc == -ENOMEM && |pool.list| == POOL_SIZE)
  {
    hide Reached, View, Good, Upto, FateOf, Listed, Firsts;
    ghost var h0 := a.State();
    var again: bool;
    ghost var all;
    again, rc, pool, q, all := Sweep(a, 0, Collector, NO_NOTES, []);
    ReachedParts(h0, a.State(), 0, Collector, q, all);
  }
}
