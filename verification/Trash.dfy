/** The trash node of a process whose blocks were held: freeing later what was noted (src/libsrpc_shm_gc.c). */
module Trash {
  import opened Arith
  import opened Heap
  import opened Invariant
  import opened Ownership
  import opened Blocks
  import opened Runs
  import opened Tlsf
  import opened TrashArray
  import opened Cleanup

  /** tlsf_free_nb of every note, in order. */
  function FreeEach(h: Heap, l: seq<Note>, uid: nat): Heap
    decreases |l|
  {
    if l == [] then h else FreeEach(Free(h, l[0].b, uid).h, l[1..], uid)
  }

  /** libsrpc_shm_trash_destroy_node. */
  method DestroyNode(a: Allocator, l: seq<Note>, uid: nat)
    requires a.Valid()
    modifies a.Footprint()
    ensures a.Valid() && a.State() == FreeEach(old(a.State()), l, uid)
    ensures old(Frees(a.State(), l, uid)) ==>
      Good(a.State()) && View(a.State()) == Emptied(old(View(a.State())), l, uid)
  {
    hide Good, View, Free, Emptied, Serves;
    if Frees(a.State(), l, uid) { FreeEachMeans(a.State(), l, uid); }
    for i := 0 to |l|
      invariant a.Valid() && FreeEach(a.State(), l[i..], uid) == FreeEach(old(a.State()), l, uid)
    {
      assert l[i..][0] == l[i] && l[i..][1..] == l[i + 1..];
      var _ := a.ReleaseOwner(l[i].b, uid);
    }
  }

  ghost predicate EachOnce(l: seq<Note>) { forall i, j :: 0 <= i < j < |l| ==> l[i].b != l[j].b }

  /** A node whose blocks are still live. */
  ghost predicate Frees(h: Heap, l: seq<Note>, uid: nat) {
    Good(h) && uid != 0 && EachOnce(l) && forall i :: 0 <= i < |l| ==> l[i].b in View(h)
  }

  /** The named blocks lose the owner uid, and go when they have no other. */
  ghost function Emptied(m: map<nat, Entry>, l: seq<Note>, uid: nat): map<nat, Entry> {
    map b | b in m && !(Mentions(l, b) && m[b].owners <= {uid})
      :: if Mentions(l, b) then m[b].(owners := m[b].owners - {uid}) else m[b]
  }

  lemma EmptiedFirst(m: map<nat, Entry>, l: seq<Note>, uid: nat)
    requires l != [] && EachOnce(l) && l[0].b in m && m[l[0].b].owners != {} && uid != 0
    ensures Emptied(FreeSpec(m, l[0].b, uid), l[1..], uid) == Emptied(m, l, uid)
  {
    var b := l[0].b;
    assert !Mentions(l[1..], b);
    forall c ensures Mentions(l, c) <==> c == b || Mentions(l[1..], c) {
      if Mentions(l, c) && c != b {
        var i :| 0 <= i < |l| && l[i].b == c;
        assert l[1..][i - 1].b == c;
      }
      if Mentions(l[1..], c) {
        var i :| 0 <= i < |l| - 1 && l[1..][i].b == c;
        assert l[i + 1].b == c;
      }
      assert l[0].b == b;
    }
    assert m[b].owners - {uid} == m[b].owners || uid in m[b].owners;
  }

  /** Freeing the notes of live blocks. */
  lemma {:induction false} FreeEachMeans(h: Heap, l: seq<Note>, uid: nat)
    requires Frees(h, l, uid)
    ensures Good(FreeEach(h, l, uid)) && View(FreeEach(h, l, uid)) == Emptied(View(h), l, uid)
    decreases |l|
  {
    hide Good, View, Free, Emptied, Carries, ExactlyBreaks;
    if l == [] {
      EmptiedNothing(View(h), uid);
    } else {
      var b := l[0].b;
      var g := Free(h, b, uid).h;
      ViewHeld(h);
      LegalFree(h, b, uid);
      StepCorrect(h, DoFree(b, uid));
      EmptiedFirst(View(h), l, uid);
      assert View(g) == FreeSpec(View(h), b, uid);
      FreeEachMeans(g, l[1..], uid);
    }
  }

  lemma EmptiedNothing(m: map<nat, Entry>, uid: nat)
    ensures Emptied(m, [], uid) == m
  {
  }

  // ---------------------------------------------------------------- deferred and immediate freeing

  function BlocksOf(l: seq<Note>): seq<nat> { seq(|l|, i requires 0 <= i < |l| => l[i].b) }

  lemma MentionedElements(l: seq<Note>)
    requires InOrder(l)
    ensures forall b :: Mentions(l, b) <==> b in Elements(BlocksOf(l))
    ensures |Elements(BlocksOf(l))| == |l|
  {
    var bs := BlocksOf(l);
    ElementsOf(bs);
    assert Distinct(bs);
    forall b ensures Mentions(l, b) <==> b in bs {
      if Mentions(l, b) {
        var i :| 0 <= i < |l| && l[i].b == b;
        assert bs[i] == b;
      }
    }
  }

  /** All blocks are still named exactly if no note is missing. */
  lemma NothingMissing(l: seq<Note>, all: seq<Note>)
    requires InOrder(all) && InOrder(l) && Among(l, all)
    ensures forall b :: Mentions(l, b) ==> Mentions(all, b)
    ensures |l| == |all| <==> forall b :: Mentions(all, b) ==> Mentions(l, b)
  {
    hide Mentions, Elements, BlocksOf, InOrder, Among;
    MentionedElements(l);
    MentionedElements(all);
    AmongMentions(l, all);
    var x, y := Elements(BlocksOf(l)), Elements(BlocksOf(all));
    if x != y {
      var b :| b in y && b !in x;
      SubsetSmaller(x, y, b);
    }
  }

  /** Whatever happened in between: a noted block that is as it was meets the fate that it was spared. */
  lemma NotedMeetsFate(
    l: seq<Note>, all: seq<Note>, m: map<nat, Entry>, now: map<nat, Entry>, first: map<nat, nat>, uid: nat, p: nat,
    b: nat)
    requires m.Keys <= first.Keys && Listed(all, m, first, uid, OnExit(true), p) && Among(l, all) && uid != 0
    requires Mentions(l, b) ==> b in now && b in m && now[b] == m[b]
    ensures var r, c := Emptied(now, l, uid), Cleaned(m, uid, OnExit(false));
            && (Mentions(l, b) ==> (b in r <==> b in c) && (b in r ==> r[b] == c[b]))
            && (!Mentions(l, b) ==> (b in r <==> b in now) && (b in r ==> r[b] == now[b]))
  {
    AmongMentions(l, all);
    ListedMentions(all, m, first, uid, OnExit(true), p, b);
    hide Mentions;
  }

  lemma ListedMentions(
    l: seq<Note>, m: map<nat, Entry>, first: map<nat, nat>, uid: nat, who: Destructor, p: nat, b: nat)
    requires m.Keys <= first.Keys && Listed(l, m, first, uid, who, p)
    ensures Mentions(l, b) <==> b in ToNote(m, first, uid, who, p)
  {
    hide FateOf;
    if Mentions(l, b) {
      var i :| 0 <= i < |l| && l[i].b == b;
    }
  }

  /** Freeing later is freeing at once, exactly if no note is missing. */
  lemma DeferredIsImmediate(
    l: seq<Note>, all: seq<Note>, m: map<nat, Entry>, first: map<nat, nat>, uid: nat, p: nat)
    requires m.Keys <= first.Keys && Listed(all, m, first, uid, OnExit(true), p) && uid != 0
    requires Among(l, all) && InOrder(l) && forall b :: b in m ==> b < p
    ensures Emptied(Cleaned(m, uid, OnExit(true)), l, uid) == Cleaned(m, uid, OnExit(false)) <==> |l| == |all|
  {
    hide FateOf, Emptied, Cleaned, Mentions, ToNote;
    var x, y := Emptied(Cleaned(m, uid, OnExit(true)), l, uid), Cleaned(m, uid, OnExit(false));
    NothingMissing(l, all);
    forall b ensures SameAt(x, y, b) <==> (Mentions(all, b) ==> Mentions(l, b)) {
      ListedMentions(all, m, first, uid, OnExit(true), p, b);
      DeferredAt(l, m, first, uid, p, b);
    }
    SameEverywhere(x, y);
  }

  ghost predicate SameAt(x: map<nat, Entry>, y: map<nat, Entry>, b: nat) {
    (b in x <==> b in y) && (b in x && b in y ==> x[b] == y[b])
  }

  lemma SameEverywhere(x: map<nat, Entry>, y: map<nat, Entry>)
    ensures x == y <==> forall b :: SameAt(x, y, b)
  {
    if forall b :: SameAt(x, y, b) {
      forall b: nat ensures b in x <==> b in y {
        assert SameAt(x, y, b);
      }
      forall b | b in x ensures x[b] == y[b] {
        assert SameAt(x, y, b);
      }
    }
  }

  /** One block: the two ways differ exactly if it was to be noted and is not. */
  lemma DeferredAt(l: seq<Note>, m: map<nat, Entry>, first: map<nat, nat>, uid: nat, p: nat, b: nat)
    requires m.Keys <= first.Keys && uid != 0 && forall b :: b in m ==> b < p
    requires Mentions(l, b) ==> b in ToNote(m, first, uid, OnExit(true), p)
    ensures SameAt(Emptied(Cleaned(m, uid, OnExit(true)), l, uid), Cleaned(m, uid, OnExit(false)), b)
      <==> (b in ToNote(m, first, uid, OnExit(true), p) ==> Mentions(l, b))
  {
    hide Mentions;
    if b in m && b in ToNote(m, first, uid, OnExit(true), p) { assert uid in m[b].owners; }
  }

  lemma KeptNotes(n: Notes, all: seq<Note>, held: bool, memory: seq<bool>)
    requires Holding(n, all, OnExit(held), memory) && InOrder(all)
    ensures Among(n.list, all) && InOrder(n.list)
    ensures |n.list| == |all| <==> Granted(memory, Growths(|all|))
  {
    FilledInOrder(all, OnExit(held), memory);
    HoldingExactly(n, all, held, memory);
  }

  /** The blocks in the node are still live after the cleanup, which frees none under a hold. */
  lemma NodeIsLive(l: seq<Note>, all: seq<Note>, m: map<nat, Entry>, first: map<nat, nat>, uid: nat, p: nat)
    requires m.Keys <= first.Keys && Listed(all, m, first, uid, OnExit(true), p) && Among(l, all)
    ensures forall i :: 0 <= i < |l| ==> l[i].b in Cleaned(m, uid, OnExit(true))
  {
    AmongMentions(l, all);
    forall i | 0 <= i < |l| ensures l[i].b in Cleaned(m, uid, OnExit(true)) {
      assert Mentions(l, l[i].b);
      ListedMentions(all, m, first, uid, OnExit(true), p, l[i].b);
    }
  }

  /**
   * The cleanup under a hold followed, with the heap undisturbed, by the end of the trash node gives the client's
   * map that the cleanup without a hold gives, exactly if the array was granted the growths that the number of
   * blocks to note needs; up to 1024 blocks need none.
   */
  lemma CleanedLater(
    h: Heap, n: Notes, all: seq<Note>, m: map<nat, Entry>, first: map<nat, nat>, uid: nat, p: nat, memory: seq<bool>)
    requires m.Keys <= first.Keys && Listed(all, m, first, uid, OnExit(true), p) && uid != 0
    requires Holding(n, all, OnExit(true), memory) && forall b :: b in m ==> b < p
    requires Good(h) && View(h) == Cleaned(m, uid, OnExit(true))
    ensures Frees(h, n.list, uid) && Good(FreeEach(h, n.list, uid))
    ensures var k := |ToNote(m, first, uid, OnExit(true), p)|;
            && (View(FreeEach(h, n.list, uid)) == Cleaned(m, uid, OnExit(false)) <==> Granted(memory, Growths(k)))
            && (k <= TRASH_ROOM ==> Granted(memory, Growths(k)))
  {
    hide Good, View, Emptied, FreeEach, Holding, ToNote, Cleaned, FateOf;
    KeptNotes(n, all, true, memory);
    DeferredIsImmediate(n.list, all, m, first, uid, p);
    NodeIsLive(n.list, all, m, first, uid, p);
    FreeEachMeans(h, n.list, uid);
    WithoutGrowth(|all|);
  }
}
