/** The growing array of a trash node, whose failed growth nobody looks at (src/libsrpc_shm_gc.c). */
module TrashArray {

  /** `OnExit(held)` cleans up after a process; `Collector` is the garbage collector's. */
  datatype Destructor = OnExit(held: bool) | Collector

  /** A block remembered for later, in the trash node or in the collector's pool. */
  datatype Note = Note(b: nat, dtype: nat, uid: nat)

  /** The array of a trash node starts with this many places. */
  const TRASH_ROOM: nat := 1024

  /**
   * The destructor's user data: how many blocks it marked, the trash node's array and its places, and how
   * often realloc was asked for more and refused.
   */
  datatype Notes = Notes(marked: nat, list: seq<Note>, room: nat, asked: nat, lost: nat)

  const NO_NOTES: Notes := Notes(0, [], TRASH_ROOM, 0, 0)

  /** libsrpc_shm_trash_add_ptr, whose failure the destructor ignores, and the collector's fixed pool. */
  function AddNote(n: Notes, note: Note, who: Destructor, memory: seq<bool>): Notes {
    if who.Collector? || |n.list| < n.room then n.(list := n.list + [note])
    else if n.asked < |memory| && memory[n.asked] then
      n.(list := n.list + [note], room := n.room + n.room / 4, asked := n.asked + 1)
    else n.(asked := n.asked + 1, lost := n.lost + 1)
  }

  /** What is left of the notes `all`, added in this order, when `memory` answers the requests for more room. */
  function Filled(all: seq<Note>, who: Destructor, memory: seq<bool>): (n: Notes)
    ensures |n.list| + n.lost == |all| && n.marked == 0
    ensures who.Collector? ==> n.list == all
    ensures who.OnExit? ==> |n.list| <= n.room && TRASH_ROOM <= n.room
  {
    if all == [] then NO_NOTES
    else AddNote(Filled(all[..|all| - 1], who, memory), all[|all| - 1], who, memory)
  }

  lemma FilledOne(all: seq<Note>, note: Note, who: Destructor, memory: seq<bool>)
    ensures Filled(all + [note], who, memory) == AddNote(Filled(all, who, memory), note, who, memory)
  {
    assert (all + [note])[..|all|] == all;
  }

  ghost predicate Mentions(l: seq<Note>, b: nat) { exists i :: 0 <= i < |l| && l[i].b == b }

  ghost predicate InOrder(l: seq<Note>) { forall i, j :: 0 <= i < j < |l| ==> l[i].b < l[j].b }

  ghost predicate Among(l: seq<Note>, all: seq<Note>) { forall i :: 0 <= i < |l| ==> l[i] in all }

  lemma MentionsOne(l: seq<Note>, x: Note)
    ensures forall b :: Mentions(l + [x], b) <==> Mentions(l, b) || b == x.b
  {
    var n := l + [x];
    assert n[|l|] == x;
    forall b | Mentions(l, b) ensures Mentions(n, b) {
      var i :| 0 <= i < |l| && l[i].b == b;
      assert n[i].b == b;
    }
  }

  lemma AmongMentions(l: seq<Note>, all: seq<Note>)
    requires Among(l, all)
    ensures forall b :: Mentions(l, b) ==> Mentions(all, b)
  {
    forall b | Mentions(l, b) ensures Mentions(all, b) {
      var i :| 0 <= i < |l| && l[i].b == b;
      assert l[i] in all;
    }
  }

  /** The notes keep their order, and nothing else gets in. */
  lemma {:induction false} FilledInOrder(all: seq<Note>, who: Destructor, memory: seq<bool>)
    requires InOrder(all)
    ensures Among(Filled(all, who, memory).list, all) && InOrder(Filled(all, who, memory).list)
  {
    if all != [] {
      hide AddNote;
      var init, last := all[..|all| - 1], all[|all| - 1];
      FilledInOrder(init, who, memory);
      assert all == init + [last];
      var l := Filled(init, who, memory).list;
      assert Among(l + [last], all);
      forall i | 0 <= i < |l| ensures l[i].b < last.b {
        var j :| 0 <= j < |init| && init[j] == l[i];
      }
      AddedOrNot(Filled(init, who, memory), last, who, memory);
    }
  }

  lemma AddedOrNot(n: Notes, note: Note, who: Destructor, memory: seq<bool>)
    ensures AddNote(n, note, who, memory).list == n.list + [note] || AddNote(n, note, who, memory).list == n.list
  {
  }

  // ---------------------------------------------------------------- when everything fits

  /** The places after g growths, each by a quarter. */
  function RoomAfter(g: nat): (r: nat)
    ensures r >= TRASH_ROOM
  {
    if g == 0 then TRASH_ROOM else RoomAfter(g - 1) + RoomAfter(g - 1) / 4
  }

  /** How often the array must grow to hold k notes. */
  function Growths(k: nat): nat {
    if k == 0 then 0
    else if k <= RoomAfter(Growths(k - 1)) then Growths(k - 1) else Growths(k - 1) + 1
  }

  predicate Granted(memory: seq<bool>, g: nat) {
    g <= |memory| && forall i :: 0 <= i < g ==> memory[i]
  }

  /** It is the least number of growths that makes room. */
  lemma {:induction false} GrowthsLeast(k: nat)
    ensures k <= RoomAfter(Growths(k))
    ensures forall g: nat :: k <= RoomAfter(g) ==> Growths(k) <= g
  {
    if k > 0 {
      GrowthsLeast(k - 1);
    }
  }

  lemma WithoutGrowth(k: nat)
    ensures Growths(k) == 0 <==> k <= TRASH_ROOM
  {
    GrowthsLeast(k);
    assert RoomAfter(0) == TRASH_ROOM;
  }

  /** Without a loss the array holds everything in the places of the least number of growths. */
  ghost predicate Exact(n: Notes, all: seq<Note>, memory: seq<bool>) {
    && (n.lost == 0 <==> Granted(memory, Growths(|all|)))
    && (n.lost == 0 <==> n.list == all)
    && (n.lost == 0 ==> n.asked == Growths(|all|) && n.room == RoomAfter(n.asked))
  }

  /** No note is lost exactly if the first growths that the notes need are all granted. */
  lemma {:induction false} FilledExactly(all: seq<Note>, held: bool, memory: seq<bool>)
    ensures Exact(Filled(all, OnExit(held), memory), all, memory)
  {
    if all != [] {
      hide AddNote, Exact, Growths;
      var init, last := all[..|all| - 1], all[|all| - 1];
      FilledExactly(init, held, memory);
      assert all == init + [last];
      AddExactly(Filled(init, OnExit(held), memory), init, last, held, memory);
    } else {
      assert Growths(0) == 0;
    }
  }

  lemma AddExactly(n: Notes, all: seq<Note>, note: Note, held: bool, memory: seq<bool>)
    requires Exact(n, all, memory) && |n.list| + n.lost == |all|
    ensures Exact(AddNote(n, note, OnExit(held), memory), all + [note], memory)
  {
    var k := |all|;
    GrowthsLeast(k);
    GrowthsStep(k);
    assert |all + [note]| == k + 1;
    hide Growths;
    if n.lost == 0 && |n.list| >= n.room {
      assert Growths(k + 1) == Growths(k) + 1;
      assert RoomAfter(Growths(k) + 1) == RoomAfter(Growths(k)) + RoomAfter(Growths(k)) / 4;
    }
  }

  lemma GrowthsStep(k: nat)
    ensures Growths(k + 1) == if k + 1 <= RoomAfter(Growths(k)) then Growths(k) else Growths(k) + 1
  {
  }
}
