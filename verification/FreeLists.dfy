module FreeLists {
  import opened Mapping
  import opened Heap

  /** The free lists hold exactly the blocks of `f`; stamps fall along `next`. */
  ghost predicate Lists(mem: seq<Line>, matrix: Matrix, f: set<nat>, st: map<nat, nat>)
  {
    && (forall b :: b in f ==> b < |mem| && b in st)
    && (forall b {:trigger Linked(mem, matrix, f, st, b)} :: b in f ==> Linked(mem, matrix, f, st, b))
    && (forall k :: 0 <= k < CLASSES && matrix[k].At? ==>
          && matrix[k].u in f
          && Class(mem[matrix[k].u].size) == k
          && mem[matrix[k].u].prev == Null)
  }

  ghost predicate Linked(mem: seq<Line>, matrix: Matrix, f: set<nat>, st: map<nat, nat>, b: nat)
    requires b in f
    requires forall c :: c in f ==> c < |mem| && c in st
  {
    && (mem[b].next.At? ==>
          && mem[b].next.u in f
          && Class(mem[mem[b].next.u].size) == Class(mem[b].size)
          && mem[mem[b].next.u].prev == At(b)
          && st[mem[b].next.u] < st[b])
    && (mem[b].prev.At? ==>
          && mem[b].prev.u in f
          && Class(mem[mem[b].prev.u].size) == Class(mem[b].size)
          && mem[mem[b].prev.u].next == At(b)
          && st[b] < st[mem[b].prev.u])
    && (mem[b].prev.Null? ==> matrix[Class(mem[b].size)] == At(b))
  }

  ghost predicate Bits(matrix: Matrix, sl: SlBits, fl: set<nat>)
  {
    && (forall k :: 0 <= k < CLASSES ==> (matrix[k].At? <==> k % 16 in sl[k / 16]))
    && (forall i, s :: 0 <= i < FLI_MAX && s in sl[i] ==> s < 16)
    && (forall i :: i in fl <==> 0 <= i < FLI_MAX && sl[i] != {})
  }

  /** What a list operation may change: the two link words of blocks on the lists. */
  ghost predicate OnlyLinks(a: seq<Line>, b: seq<Line>, f: set<nat>)
  {
    && |a| == |b|
    && forall u :: 0 <= u < |a| ==>
        && b[u] == a[u].(prev := b[u].prev, next := b[u].next)
        && (u !in f ==> b[u] == a[u])
  }

  /** Taking b off its list makes its two neighbours point past it. */
  ghost predicate Spliced(h: Heap, r: Heap, b: nat, k: nat)
    requires b < |h.mem| && k < CLASSES
  {
    && |r.mem| == |h.mem|
    && (forall u :: 0 <= u < |h.mem| ==>
          && r.mem[u].next == (if h.mem[b].prev == At(u) then h.mem[b].next else h.mem[u].next)
          && r.mem[u].prev == (if h.mem[b].next == At(u) then h.mem[b].prev else h.mem[u].prev)
          && r.mem[u].size == h.mem[u].size)
    && r.matrix == (if h.mem[b].prev.Null? then h.matrix[k := h.mem[b].next] else h.matrix)
  }

  lemma RemoveSplices(h: Heap, f: set<nat>, st: map<nat, nat>, b: nat)
    requires Lists(h.mem, h.matrix, f, st) && b in f
    ensures var r := Unlink(h, b, Class(h.mem[b].size));
            && Spliced(h, r, b, Class(h.mem[b].size))
            && OnlyLinks(h.mem, r.mem, f - {b})
            && r == h.(mem := r.mem, matrix := r.matrix)
  {
    hide Class;
    assert Linked(h.mem, h.matrix, f, st, b);
  }

  lemma SpliceKeepsLists(h: Heap, r: Heap, f: set<nat>, st: map<nat, nat>, b: nat)
    requires Lists(h.mem, h.matrix, f, st) && b in f
    requires Spliced(h, r, b, Class(h.mem[b].size))
    ensures Lists(r.mem, r.matrix, f - {b}, st)
  {
    hide Class;
    assert Linked(h.mem, h.matrix, f, st, b);
    forall c | c in f - {b}
      ensures Linked(r.mem, r.matrix, f - {b}, st, c)
    {
      assert Linked(h.mem, h.matrix, f, st, c);
    }
  }

  /** Every bit agrees with its list, except that class k may have a bit too many. */
  ghost predicate BitsBut(matrix: Matrix, sl: SlBits, fl: set<nat>, k: nat)
    requires k < CLASSES
  {
    && (forall j :: 0 <= j < CLASSES && j != k ==> (matrix[j].At? <==> j % 16 in sl[j / 16]))
    && (matrix[k].At? ==> k % 16 in sl[k / 16])
    && (forall i, s :: 0 <= i < FLI_MAX && s in sl[i] ==> s < 16)
    && (forall i :: i in fl <==> 0 <= i < FLI_MAX && sl[i] != {})
  }

  lemma ClearingKeepsBits(h: Heap, k: nat)
    requires k < CLASSES && BitsBut(h.matrix, h.sl, h.fl, k)
    ensures var r := ClearBits(h, k); Bits(r.matrix, r.sl, r.fl)
  {
    var r := ClearBits(h, k);
    forall j | 0 <= j < CLASSES
      ensures r.matrix[j].At? <==> j % 16 in r.sl[j / 16]
    {
      if j / 16 == k / 16 && j % 16 == k % 16 { assert j == k; }
    }
  }

  lemma SettingKeepsBits(h: Heap, g: Heap, k: nat)
    requires k < CLASSES && Bits(g.matrix, g.sl, g.fl)
    requires h.sl == g.sl && h.fl == g.fl && h.matrix[k].At? && h.matrix == g.matrix[k := h.matrix[k]]
    ensures var r := SetBits(h, k); Bits(r.matrix, r.sl, r.fl)
  {
    var r := SetBits(h, k);
    forall j | 0 <= j < CLASSES
      ensures r.matrix[j].At? <==> j % 16 in r.sl[j / 16]
    {
      if j / 16 == k / 16 && j % 16 == k % 16 { assert j == k; }
    }
  }

  lemma RemoveKeepsLists(h: Heap, f: set<nat>, st: map<nat, nat>, b: nat)
    requires Lists(h.mem, h.matrix, f, st) && Bits(h.matrix, h.sl, h.fl)
    requires b in f
    ensures var r := RemoveFree(h, b, Class(h.mem[b].size));
            && Lists(r.mem, r.matrix, f - {b}, st)
            && Bits(r.matrix, r.sl, r.fl)
            && OnlyLinks(h.mem, r.mem, f - {b})
            && r.used == h.used && r.log == h.log
  {
    hide Class, Unlink, OnlyLinks;
    var k := Class(h.mem[b].size);
    assert Linked(h.mem, h.matrix, f, st, b);
    var u := Unlink(h, b, k);
    RemoveSplices(h, f, st, b);
    SpliceKeepsLists(h, u, f, st, b);
    assert BitsBut(u.matrix, u.sl, u.fl, k) by { hide Lists; }
    ClearingKeepsBits(u, k);
  }

  lemma InsertLinks(h: Heap, f: set<nat>, st: map<nat, nat>, b: nat, stamp: nat)
    requires Lists(h.mem, h.matrix, f, st)
    requires b !in f && b < |h.mem|
    requires forall c :: c in f ==> st[c] < stamp
    ensures var r := LinkFirst(h, b, Class(h.mem[b].size));
            && Lists(r.mem, r.matrix, f + {b}, st[b := stamp])
            && OnlyLinks(h.mem, r.mem, f + {b})
            && r == h.(mem := r.mem, matrix := h.matrix[Class(h.mem[b].size) := At(b)])
  {
    hide Class;
    var k := Class(h.mem[b].size);
    var r := LinkFirst(h, b, k);
    forall c | c in f + {b}
      ensures Linked(r.mem, r.matrix, f + {b}, st[b := stamp], c)
    {
      if c != b { assert Linked(h.mem, h.matrix, f, st, c); }
    }
  }

  lemma InsertKeepsLists(h: Heap, f: set<nat>, st: map<nat, nat>, b: nat, stamp: nat)
    requires Lists(h.mem, h.matrix, f, st) && Bits(h.matrix, h.sl, h.fl)
    requires b !in f && b < |h.mem|
    requires forall c :: c in f ==> st[c] < stamp
    ensures var r := InsertFree(h, b, Class(h.mem[b].size));
            && Lists(r.mem, r.matrix, f + {b}, st[b := stamp])
            && Bits(r.matrix, r.sl, r.fl)
            && OnlyLinks(h.mem, r.mem, f + {b})
            && r.used == h.used && r.log == h.log
  {
    hide Class, LinkFirst, OnlyLinks, Lists, Bits;
    InsertLinks(h, f, st, b, stamp);
    SettingKeepsBits(LinkFirst(h, b, Class(h.mem[b].size)), h, Class(h.mem[b].size));
  }
}
