/** The twelve owner slots of a block as a set of owners. */
module OwnerSlots {
  import opened Heap
  import opened Invariant

  ghost predicate Distinct(s: Owners) {
    forall i, j :: 0 <= i < j < OWNERS && s[i] != 0 ==> s[i] != s[j]
  }

  lemma {:induction false} SlotSpec(s: Owners, uid: nat, i: nat)
    requires i <= OWNERS
    ensures var r := UidFind(s, uid, i);
            && i <= r <= OWNERS
            && (r < OWNERS ==> s[r] == uid)
            && (forall j :: i <= j < r ==> s[j] != uid)
    decreases OWNERS - i
  {
    if i < OWNERS && s[i] != uid { SlotSpec(s, uid, i + 1); }
  }

  /** uid_find succeeds exactly on owners. */
  lemma FindIsMember(s: Owners, uid: nat)
    requires uid != 0
    ensures UidFind(s, uid, 0) < OWNERS <==> uid in OwnerSet(s)
  {
    SlotSpec(s, uid, 0);
  }

  lemma {:induction false} CountSpec(s: Owners, i: nat)
    requires i <= OWNERS && Distinct(s)
    ensures UidCount(s, i) == |set j | i <= j < OWNERS && s[j] != 0 :: s[j]|
    decreases OWNERS - i
  {
    var here := set j | i <= j < OWNERS && s[j] != 0 :: s[j];
    if i == OWNERS {
      assert here == {};
    } else {
      CountSpec(s, i + 1);
      var more := set j | i + 1 <= j < OWNERS && s[j] != 0 :: s[j];
      if s[i] == 0 {
        assert here == more;
      } else {
        assert here == {s[i]} + more;
        assert s[i] !in more;
      }
    }
  }

  /** uid_count is the number of owners. */
  lemma CountIsSize(s: Owners)
    requires Distinct(s)
    ensures UidCount(s, 0) == |OwnerSet(s)|
  {
    CountSpec(s, 0);
    assert OwnerSet(s) == set j | 0 <= j < OWNERS && s[j] != 0 :: s[j];
  }

  /** The slots with every occurrence of uid from i on emptied. */
  function Dropped(s: Owners, uid: nat, i: nat): Owners {
    seq(OWNERS, j requires 0 <= j < OWNERS => if i <= j && s[j] == uid then 0 else s[j])
  }

  lemma DroppedOwners(s: Owners, uid: nat)
    requires Distinct(s) && uid != 0
    ensures Distinct(Dropped(s, uid, 0))
    ensures OwnerSet(Dropped(s, uid, 0)) == OwnerSet(s) - {uid}
  {
    var d := Dropped(s, uid, 0);
    forall x | x in OwnerSet(s) - {uid} ensures x in OwnerSet(d) {
      var i :| 0 <= i < OWNERS && s[i] != 0 && s[i] == x;
      assert d[i] == x;
    }
    forall x | x in OwnerSet(d) ensures x in OwnerSet(s) - {uid} {
      var i :| 0 <= i < OWNERS && d[i] != 0 && d[i] == x;
      assert s[i] == x;
    }
  }

  lemma AddedOwner(s: Owners, uid: nat, slot: nat)
    requires Distinct(s) && uid != 0 && uid !in OwnerSet(s) && slot < OWNERS && s[slot] == 0
    ensures Distinct(s[slot := uid])
    ensures OwnerSet(s[slot := uid]) == OwnerSet(s) + {uid}
  {
    var d := s[slot := uid];
    assert forall i :: 0 <= i < OWNERS && s[i] != 0 ==> s[i] in OwnerSet(s);
    forall x | x in OwnerSet(s) + {uid} ensures x in OwnerSet(d) {
      if x == uid { assert d[slot] == uid; } else {
        var i :| 0 <= i < OWNERS && s[i] != 0 && s[i] == x;
        assert d[i] == x;
      }
    }
  }

  /** A full owner array holds exactly twelve owners. */
  lemma FullIsTwelve(s: Owners)
    requires Distinct(s)
    ensures UidFind(s, 0, 0) >= OWNERS <==> |OwnerSet(s)| == 12
  {
    SlotSpec(s, 0, 0);
    CountIsSize(s);
    CountFull(s, 0);
  }

  lemma {:induction false} CountFull(s: Owners, i: nat)
    requires i <= OWNERS
    ensures UidCount(s, i) <= OWNERS - i
    ensures UidCount(s, i) == OWNERS - i <==> forall j :: i <= j < OWNERS ==> s[j] != 0
    decreases OWNERS - i
  {
    if i < OWNERS { CountFull(s, i + 1); }
  }

  lemma FirstIsOwner(s: Owners, i: nat)
    requires i <= OWNERS
    ensures UidFirst(s, i) != 0 ==> UidFirst(s, i) in OwnerSet(s)
    ensures UidFirst(s, i) == 0 ==> forall j :: i <= j < OWNERS ==> s[j] == 0
    decreases OWNERS - i
  {
  }

  function Occurs(s: Owners, uid: nat, i: nat): nat
    decreases OWNERS - i
  {
    if i >= OWNERS then 0 else (if s[i] == uid then 1 else 0) + Occurs(s, uid, i + 1)
  }

  /** Distinct owners: the loop writes at most one slot. */
  lemma {:induction false} OccursOnce(s: Owners, uid: nat, i: nat)
    requires Distinct(s) && uid != 0 && i <= OWNERS
    ensures Occurs(s, uid, i) <= 1
    ensures Occurs(s, uid, i) == 1 ==> exists j :: i <= j < OWNERS && s[j] == uid
    decreases OWNERS - i
  {
    if i < OWNERS { OccursOnce(s, uid, i + 1); }
  }

  lemma SameOccurs(s: Owners, t: Owners, uid: nat, i: nat)
    requires forall j :: i <= j < OWNERS ==> s[j] == t[j]
    ensures Occurs(s, uid, i) == Occurs(t, uid, i)
    decreases OWNERS - i
  {
  }

  /** The loop that empties the slots of uid: one log record per slot it writes. */
  lemma {:induction false} DropUidEffect(h: Heap, b: nat, uid: nat, i: nat)
    requires i <= OWNERS && b < |h.mem| && |h.log| + (OWNERS - i) <= BUL_ENTRIES
    ensures var r := DropUid(h, b, uid, i);
            && r.Go?
            && |r.h.log| == |h.log| + Occurs(h.mem[b].uid, uid, i)
            && r.h == h.(mem := h.mem[b := h.mem[b].(uid := Dropped(h.mem[b].uid, uid, i))], log := r.h.log)
    decreases OWNERS - i
  {
    hide Recover, Read;
    if i == OWNERS {
      assert Dropped(h.mem[b].uid, uid, i) == h.mem[b].uid;
      assert h.mem[b := h.mem[b]] == h.mem;
    } else if h.mem[b].uid[i] == uid {
      var h1 := Push(h, UidAt(b, i / 4)).h;
      var h2 := Put(h1, b, Get(h1, b).(uid := Get(h1, b).uid[i := 0]));
      DropUidEffect(h2, b, uid, i + 1);
      assert Dropped(h2.mem[b].uid, uid, i + 1) == Dropped(h.mem[b].uid, uid, i);
      SameOccurs(h.mem[b].uid, h2.mem[b].uid, uid, i + 1);
    } else {
      DropUidEffect(h, b, uid, i + 1);
      assert Dropped(h.mem[b].uid, uid, i + 1) == Dropped(h.mem[b].uid, uid, i);
    }
  }
}
