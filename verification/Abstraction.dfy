/** How a local write changes the client's view, the map of live blocks. */
module Abstraction {
  import opened Heap
  import opened FreeLists
  import opened Invariant

  /** The blocks outside [lo, hi) are the same. */
  ghost predicate SameOutside(was: set<nat>, now: set<nat>, lo: nat, hi: nat) {
    forall b: nat :: !(lo <= b < hi) ==> (b in was <==> b in now)
  }

  ghost function Outside(m: map<nat, Entry>, lo: nat, hi: nat): map<nat, Entry> {
    map b | b in m && !(lo <= b < hi) :: m[b]
  }

  lemma LiveOutside(a: seq<Line>, c: seq<Line>, was: set<nat>, now: set<nat>, lo: nat, hi: nat)
    requires InRange(a, was) && InRange(c, now)
    requires Local(a, c, was, lo, hi) && SameOutside(was, now, lo, hi)
    ensures Outside(Live(a, was), lo, hi) == Outside(Live(c, now), lo, hi)
  {
    assert forall b: nat :: b < |a| && !(lo <= b < hi) ==> EntryOf(c[b]) == EntryOf(a[b]) && c[b].free == a[b].free;
  }

  /** If b is the only live block in the region, the whole map changes only at b. */
  lemma OnlyEntry(was: map<nat, Entry>, now: map<nat, Entry>, lo: nat, hi: nat, b: nat)
    requires Outside(was, lo, hi) == Outside(now, lo, hi) && lo <= b < hi
    requires forall c :: c in was && lo <= c < hi ==> c == b
    requires forall c :: c in now && lo <= c < hi ==> c == b
    ensures b in now ==> now == was[b := now[b]]
    ensures b !in now ==> now == was - {b}
  {
    forall c | c in was && c != b ensures c in now && now[c] == was[c] {
      assert c in Outside(was, lo, hi);
    }
    forall c | c in now && c != b ensures c in was {
      assert c in Outside(now, lo, hi);
    }
  }

  lemma ClientOutside(a: seq<Line>, c: seq<Line>, was: Shape, now: Shape, lo: nat, hi: nat)
    requires InRange(a, was.blocks) && InRange(c, now.blocks)
    requires Local(a, c, was.blocks, lo, hi) && Clients(a, was)
    requires SameOutside(was.blocks, now.blocks, lo, hi) && SameOutside(was.free, now.free, lo, hi)
    requires forall b {:trigger ClientOk(c, now.free, b)} ::
      b in now.blocks && lo <= b < hi ==> ClientOk(c, now.free, b)
    ensures Clients(c, now)
  {
    forall b | b in now.blocks ensures ClientOk(c, now.free, b) {
      if !(lo <= b < hi) {
        assert ClientOk(a, was.free, b);
        assert c[b].free == a[b].free && c[b].uid == a[b].uid;
      }
    }
  }

  // ---------------------------------------------------------------- payloads

  /** The payload units of the blocks of m hold what they held. */
  ghost predicate PayloadKept(a: seq<Line>, c: seq<Line>, m: map<nat, Entry>) {
    && |a| == |c|
    && forall b, u :: b in m && b < u < b + m[b].size && u < |a| ==> c[u] == a[u]
  }

  lemma PayloadLocal(h: Heap, c: seq<Line>, s: Shape, but: nat, lo: nat, hi: nat)
    requires Sound(h, s, but) && InRange(h.mem, s.blocks)
    requires Local(h.mem, c, s.blocks, lo, hi)
    requires lo in s.blocks && (hi >= |h.mem| || hi in s.blocks)
    ensures PayloadKept(h.mem, c, Outside(Live(h.mem, s.blocks), lo, hi))
  {
    hide Lists, Bits, Chained, PrevSizes;
    var m := Outside(Live(h.mem, s.blocks), lo, hi);
    forall b, u | b in m && b < u < b + m[b].size && u < |h.mem| ensures c[u] == h.mem[u] {
      assert b in s.blocks && b + h.mem[b].size <= |h.mem|;
      assert u !in s.blocks;
    }
  }

  // ---------------------------------------------------------------- used_bytes

  ghost function Bytes(e: Entry): int { 64 * (e.size - 1) }

  lemma {:induction false} TotalRemove(m: map<nat, Entry>, k: nat)
    requires k in m
    ensures Total(m) == Bytes(m[k]) + Total(m - {k})
    decreases |m|
  {
    var b :| b in m && Total(m) == 64 * (m[b].size - 1) + Total(m - {b});
    if b != k {
      TotalRemove(m - {b}, k);
      TotalRemove(m - {k}, b);
      assert m - {b} - {k} == m - {k} - {b};
    }
  }

  lemma TotalInsert(m: map<nat, Entry>, k: nat, e: Entry)
    requires k !in m
    ensures Total(m[k := e]) == Total(m) + Bytes(e)
  {
    TotalRemove(m[k := e], k);
    assert m[k := e] - {k} == m;
  }

  lemma TotalReplace(m: map<nat, Entry>, k: nat, e: Entry)
    requires k in m
    ensures Total(m[k := e]) == Total(m) - Bytes(m[k]) + Bytes(e)
  {
    TotalRemove(m, k);
    TotalRemove(m[k := e], k);
    assert m[k := e] - {k} == m - {k};
  }
}
