/** Which block find_suitable_block returns. */
module Search {
  import opened Arith
  import opened Mapping
  import opened Heap
  import opened FreeLists
  import opened Invariant

  // ---------------------------------------------------------------- the class map

  lemma {:induction false} PowMonotone(a: nat, b: nat)
    requires a <= b
    ensures Pow2(a) <= Pow2(b)
    decreases b
  {
    if a < b { PowMonotone(a, b - 1); }
  }

  lemma {:induction false} PowAdd(a: nat, b: nat)
    ensures Pow2(a + b) == Pow2(a) * Pow2(b)
    decreases b
  {
    if b > 0 {
      PowAdd(a, b - 1);
      assert Pow2(a + b) == 2 * Pow2(a + (b - 1));
    }
  }

  lemma LogBelow(n: nat, k: nat)
    requires 0 < n
    ensures n < Pow2(k) <==> Log2(n) < k
  {
    if Log2(n) < k { PowMonotone(Log2(n) + 1, k); }
    else { PowMonotone(k, Log2(n)); }
  }

  /** floor(log2) is monotone. */
  lemma LogMonotone(a: nat, b: nat)
    requires 0 < a <= b
    ensures Log2(a) <= Log2(b)
  {
    LogBelow(a, Log2(b) + 1);
  }

  lemma DivFloor(n: nat, d: nat, q: nat)
    requires d > 0 && q * d <= n < (q + 1) * d
    ensures n / d == q
  {
    var e := n / d;
    assert e * d <= n < e * d + d;
    if e < q { MulMono(e + 1, q, d); }
    if e > q { MulMono(q + 1, e, d); }
  }

  lemma DivBounds(n: nat, d: nat)
    requires d > 0
    ensures (n / d) * d <= n < (n / d + 1) * d
  {
  }

  // Sizes in bytes below 2^41 and at least 16, where the class map is a floor at 3 fractional bits.
  const SPAN: nat := 0x200_0000_0000

  /** The width of the classes of first level fl. */
  function Width(fl: nat): (w: nat)
    ensures w > 0
  {
    if fl < SLI_COUNT then 1 else Pow2(fl - SLI_COUNT + 1)
  }

  /** Sizes of one first level use second levels 8..15 only: class sl holds [sl * width, (sl + 1) * width). */
  lemma ClassRange(size: nat)
    requires 16 <= size < SPAN
    ensures var fl := FirstLevel(size);
            && fl == Log2(size) && 4 <= fl
            && SecondLevel(size, fl) == size / Width(fl)
            && 8 <= SecondLevel(size, fl) < 16
            && 8 * Width(fl) <= size < 16 * Width(fl)
  {
    Span();
    LogBelow(size, 41);
    LogBelow(size, 4);
    PowEight(Log2(size) - 3);
    Quotient(size, Width(Log2(size)));
  }

  lemma Span()
    ensures Pow2(41) == SPAN && Pow2(4) == 16
  {
    PowEight(0);
    PowEight(4);
    PowEight(8);
    PowAdd(12, 8);
    PowAdd(20, 20);
    assert Pow2(8) == 256 && Pow2(12) == 4096 && Pow2(20) == 1048576;
    assert Pow2(41) == 2 * Pow2(40);
  }

  lemma PowEight(n: nat)
    ensures Pow2(n + 3) == 8 * Pow2(n) && Pow2(n + 4) == 16 * Pow2(n)
  {
    assert Pow2(n + 1) == 2 * Pow2(n);
    assert Pow2(n + 2) == 2 * Pow2(n + 1);
    assert Pow2(n + 3) == 2 * Pow2(n + 2);
    assert Pow2(n + 4) == 2 * Pow2(n + 3);
  }

  lemma Quotient(size: nat, w: nat)
    requires w > 0 && 8 * w <= size < 16 * w
    ensures 8 <= size / w < 16
  {
    DivBounds(size, w);
    var q := size / w;
    if q < 8 { MulMono(q + 1, 8, w); }
    if q >= 16 { MulMono(16, q, w); }
  }

  lemma DivMonotone(a: nat, b: nat, d: nat)
    requires d > 0 && a <= b
    ensures a / d <= b / d
  {
    DivBounds(a, d);
    DivBounds(b, d);
    if a / d > b / d { MulMono(b / d + 1, a / d, d); }
  }

  /** The second level, as a quotient. */
  function Part(a: nat): nat
    requires a > 0
  {
    var n := 64 * a;
    n / Width(Log2(n))
  }

  /** The class index of a block, by its logarithm and its quotient. */
  lemma ClassByLog(a: nat)
    requires 0 < a && 64 * a < SPAN
    ensures Class(a) == Log2(64 * a) * SLI_SIZE + Part(a) && Part(a) < 16
  {
    ClassRange(64 * a);
  }

  lemma PartMonotone(a: nat, b: nat)
    requires 0 < a <= b && Log2(64 * a) == Log2(64 * b)
    ensures Part(a) <= Part(b)
  {
    hide Log2, Width;
    DivMonotone(64 * a, 64 * b, Width(Log2(64 * a)));
  }

  lemma LexOrder(fl: nat, s: nat, gl: nat, t: nat)
    requires fl <= gl && s < 16 && t < 16 && (fl == gl ==> s <= t)
    ensures fl * SLI_SIZE + s <= gl * SLI_SIZE + t
  {
  }

  /** A larger block never has a smaller class. */
  lemma ClassMonotone(a: nat, b: nat)
    requires 0 < a <= b && 64 * b < SPAN
    ensures Class(a) <= Class(b)
  {
    hide Class, Log2, Part;
    ClassByLog(a);
    ClassByLog(b);
    LogMonotone(64 * a, 64 * b);
    if Log2(64 * a) == Log2(64 * b) { PartMonotone(a, b); }
    LexOrder(Log2(64 * a), Part(a), Log2(64 * b), Part(b));
  }

  /** A request of `total` units sits at the lower bound of its class. */
  predicate ClassAligned(total: nat) {
    64 * total % Width(FirstLevel(64 * total)) == 0
  }

  lemma SameClass(a: nat, b: nat)
    requires 0 < a && 0 < b && 64 * a < SPAN && 64 * b < SPAN && Class(a) == Class(b)
    ensures FirstLevel(64 * a) == FirstLevel(64 * b)
    ensures 64 * a / Width(FirstLevel(64 * a)) == 64 * b / Width(FirstLevel(64 * a))
  {
    ClassRange(64 * a);
    ClassRange(64 * b);
  }

  lemma MultipleBelow(a: nat, b: nat, w: nat)
    requires w > 0 && a % w == 0 && a / w == b / w
    ensures a <= b
  {
    assert a == (a / w) * w;
    DivBounds(b, w);
  }

  lemma AlignedSuffices(total: nat, size: nat)
    requires 0 < total && 0 < size && 64 * total < SPAN && 64 * size < SPAN
    requires Class(size) == Class(total) && ClassAligned(total)
    ensures size >= total
  {
    hide Class, FirstLevel, Width;
    SameClass(total, size);
    ClassRange(64 * total);
    MultipleBelow(64 * total, 64 * size, Width(FirstLevel(64 * total)));
  }

  lemma DivScale(x: nat, m: nat)
    requires m > 0
    ensures 64 * x / (64 * m) == x / m
    ensures 64 * x % (64 * m) == 64 * (x % m)
  {
    var q, r := x / m, x % m;
    assert x == q * m + r;
    assert 64 * x == q * (64 * m) + 64 * r;
    DivFloor(64 * x, 64 * m, q);
  }

  lemma ModMultiple(p: nat, k: nat)
    requires p > 0
    ensures p * k % p == 0
  {
    DivFloor(p * k, p, k);
  }

  lemma FactorOf64(p: nat, q: nat, u: nat)
    requires p > 0 && p * q == 64
    ensures 64 * u % p == 0
  {
    assert (p * q) * u == p * (q * u);
    ModMultiple(p, q * u);
  }

  lemma MultipleOfPow(u: nat, n: nat)
    requires n <= 6
    ensures 64 * u % Pow2(n) == 0
  {
    PowSix();
    PowAdd(n, 6 - n);
    hide Pow2;
    FactorOf64(Pow2(n), Pow2(6 - n), u);
  }

  lemma PowSix()
    ensures Pow2(6) == 64
  {
    PowEight(0);
    PowEight(3);
  }

  /** From 1024 bytes on a class is m units wide. */
  lemma ClassInUnits(x: nat, fl: nat)
    requires fl >= 9 && 64 * x < SPAN && Pow2(fl) <= 64 * x < Pow2(fl + 1)
    ensures var m := Pow2(fl - 9);
            && 8 * m <= x < 16 * m
            && FirstLevel(64 * x) == fl && Width(fl) == 64 * m
            && Class(x) == fl * SLI_SIZE + x / m
  {
    hide Pow2, Log2;
    var m := Pow2(fl - 9);
    LogIs(64 * x, fl);
    ClassRange(64 * x);
    PowSix();
    PowAdd(fl - 9, 6);
    PowTop(fl);
    DivScale(x, m);
  }

  lemma UnalignedIsLarge(total: nat)
    requires MIN_BLOCK <= total && 64 * total < SPAN && !ClassAligned(total)
    ensures Log2(64 * total) >= 10
  {
    hide Pow2, Log2;
    ClassRange(64 * total);
    if Log2(64 * total) <= 9 { MultipleOfPow(total, Log2(64 * total) - 3); }
  }

  /** One unit less is still in the class of a request that is not aligned. */
  lemma UnalignedNeighbour(total: nat)
    requires MIN_BLOCK <= total && 64 * total < SPAN && !ClassAligned(total)
    ensures Class(total - 1) == Class(total)
  {
    hide Pow2, Class, Width, FirstLevel;
    UnalignedIsLarge(total);
    var fl := Log2(64 * total);
    ClassInUnits(total, fl);
    var m := Pow2(fl - 9);
    DivScale(total, m);
    UnalignedStep(total, m);
    PowTop(fl);
    PowSix();
    PowAdd(fl - 9, 6);
    ClassInUnits(total - 1, fl);
  }

  lemma PowTop(fl: nat)
    requires fl >= 3
    ensures Pow2(fl) == 8 * Pow2(fl - 3) && Pow2(fl + 1) == 16 * Pow2(fl - 3)
  {
    PowEight(fl - 3);
  }

  lemma UnalignedStep(total: nat, m: nat)
    requires m > 0 && total % m != 0
    ensures total > 0 && (total - 1) / m == total / m
    ensures 8 * m <= total ==> 8 * m <= total - 1
  {
    var q := total / m;
    assert total == q * m + total % m;
    DivFloor(total - 1, m, q);
    if 8 * m == total { DivFloor(total, m, 8); }
  }

  lemma LogIs(n: nat, k: nat)
    requires Pow2(k) <= n < Pow2(k + 1)
    ensures n > 0 && Log2(n) == k
  {
    LogBelow(n, k);
    LogBelow(n, k + 1);
  }

  /**
   * Every block of the request's own class is large enough exactly when the request is the lower
   * bound of that class.
   */
  lemma AlignedExactly(total: nat)
    requires MIN_BLOCK <= total && 64 * total < SPAN
    ensures ClassAligned(total) <==>
      forall size: nat {:trigger Class(size)} ::
        0 < size && 64 * size < SPAN && Class(size) == Class(total) ==> size >= total
  {
    hide Class, Width, FirstLevel, Log2, Pow2;
    if ClassAligned(total) {
      forall size: nat {:trigger Class(size)} | 0 < size && 64 * size < SPAN && Class(size) == Class(total)
        ensures size >= total
      {
        AlignedSuffices(total, size);
      }
    } else {
      UnalignedNeighbour(total);
      assert Class(total - 1) == Class(total);
    }
  }

  // ---------------------------------------------------------------- list heads

  /** A class with a free block has a list head. */
  lemma {:induction false} HeadExists(h: Heap, s: Shape, but: nat, b: nat)
    requires Sound(h, s, but) && b in s.free && b < |h.mem|
    ensures h.matrix[Class(h.mem[b].size)].At?
    decreases s.clock - s.stamp[b]
  {
    hide Class, Tiled, PrevSizes, Bits;
    assert Linked(h.mem, h.matrix, s.free, s.stamp, b);
    if h.mem[b].prev.At? { HeadExists(h, s, but, h.mem[b].prev.u); }
  }

  lemma HeadIsFree(h: Heap, s: Shape, but: nat, k: nat)
    requires Sound(h, s, but) && k < CLASSES && h.matrix[k].At?
    ensures h.matrix[k].u in s.free && h.matrix[k].u < |h.mem| && Class(h.mem[h.matrix[k].u].size) == k
  {
    hide Class, Tiled, PrevSizes, Bits, Linked;
  }

  lemma BitIsHead(h: Heap, s: Shape, but: nat, f: nat, i: nat)
    requires Sound(h, s, but) && f < FLI_MAX && i < 16
    ensures h.matrix[f * 16 + i].At? <==> i in h.sl[f]
  {
    hide Class, Tiled, PrevSizes, Lists;
    assert (f * 16 + i) / 16 == f && (f * 16 + i) % 16 == i;
  }

  lemma RowBits(h: Heap, s: Shape, but: nat, f: nat)
    requires Sound(h, s, but) && f < FLI_MAX
    ensures f in h.fl <==> h.sl[f] != {}
    ensures forall i :: i in h.sl[f] ==> i < 16
    ensures forall g :: g in h.fl ==> g < FLI_MAX
  {
    hide Class, Tiled, PrevSizes, Lists;
  }

  /** The class whose list head the search returns, or CLASSES. */
  function FoundClass(h: Heap, fl: nat, sl: nat): nat
    requires fl < FLI_MAX
  {
    var s := LeastBit(h.sl[fl], sl);
    if s < SLI_SIZE then fl * 16 + s else
      var f := LeastBit(h.fl, fl + 1);
      if f >= FLI_MAX then CLASSES else f * 16 + LeastBit(h.sl[f], 0)
  }

  ghost predicate NoHeads(h: Heap, lo: nat, hi: nat) {
    forall j :: lo <= j < hi && j < CLASSES ==> h.matrix[j].Null?
  }

  /** The search takes the head of the least non-empty class at or above the request's. */
  lemma FindLeast(h: Heap, s: Shape, but: nat, fl: nat, sl: nat)
    requires Sound(h, s, but) && fl < FLI_MAX && sl < 16
    ensures var k := FoundClass(h, fl, sl);
            && fl * 16 + sl <= k <= CLASSES
            && NoHeads(h, fl * 16 + sl, k)
            && Find(h, fl, sl) == (if k < CLASSES then h.matrix[k] else Null)
            && (k < CLASSES ==> h.matrix[k].At?)
  {
    hide Sound;
    RowBits(h, s, but, fl);
    var a := LeastBit(h.sl[fl], sl);
    var f := LeastBit(h.fl, fl + 1);
    if a < SLI_SIZE {
      BitIsHead(h, s, but, fl, a);
    } else if f < FLI_MAX {
      RowBits(h, s, but, f);
      var i :| i in h.sl[f];
      BitIsHead(h, s, but, f, LeastBit(h.sl[f], 0));
    }
    NothingBelow(h, s, but, fl, sl);
  }

  lemma NothingBelow(h: Heap, s: Shape, but: nat, fl: nat, sl: nat)
    requires Sound(h, s, but) && fl < FLI_MAX && sl < 16
    ensures NoHeads(h, fl * 16 + sl, FoundClass(h, fl, sl))
  {
    hide Sound;
    forall j | fl * 16 + sl <= j < FoundClass(h, fl, sl) && j < CLASSES ensures h.matrix[j].Null? {
      var g, i := j / 16, j % 16;
      assert j == g * 16 + i;
      BitIsHead(h, s, but, g, i);
      RowBits(h, s, but, g);
      var f := LeastBit(h.fl, fl + 1);
      if f < FLI_MAX {
        RowBits(h, s, but, f);
        var t :| t in h.sl[f];
        assert LeastBit(h.sl[f], 0) <= t;
      }
      if g == fl {
        assert sl <= i < LeastBit(h.sl[fl], sl);
      } else if g == f {
        assert i < LeastBit(h.sl[f], 0);
      } else {
        assert fl < g < f;
        assert g !in h.fl;
      }
    }
  }

  /** find_suitable_block for a request of `total` units: least class first, and NULL only if nothing fits. */
  lemma SearchSpec(h: Heap, s: Shape, total: nat)
    requires Core(h, s) && MIN_BLOCK <= total && 64 * total < SPAN
    ensures FindFor(h, total).Null? ==> forall b :: b in s.free ==> b < |h.mem| && h.mem[b].size < total
    ensures FindFor(h, total).At? ==>
      var b := FindFor(h, total).u;
      && b in s.free && b < |h.mem| && Class(total) <= Class(h.mem[b].size)
      && (forall c :: c in s.free && c < |h.mem| && Class(total) <= Class(h.mem[c].size) ==>
            Class(h.mem[b].size) <= Class(h.mem[c].size))
      && (Class(total) < Class(h.mem[b].size) || ClassAligned(total) ==> total <= h.mem[b].size)
  {
    hide Class, Core, ClassAligned;
    CoreSound(h, s);
    var fl := FirstLevel(64 * total);
    var sl := SecondLevel(64 * total, fl);
    ClassIs(total);
    FindLeast(h, s, NOBODY, fl, sl);
    var k := FoundClass(h, fl, sl);
    forall c | c in s.free ensures c < |h.mem| && (Class(total) <= Class(h.mem[c].size) ==> k <= Class(h.mem[c].size)) {
      FreeSize(h, s, c);
      HeadExists(h, s, NOBODY, c);
    }
    if k == CLASSES {
      forall c | c in s.free ensures h.mem[c].size < total {
        FreeSize(h, s, c);
        if h.mem[c].size >= total { ClassMonotone(total, h.mem[c].size); }
      }
    } else {
      HeadIsFree(h, s, NOBODY, k);
      var b := h.matrix[k].u;
      FreeSize(h, s, b);
      if total > h.mem[b].size {
        ClassMonotone(h.mem[b].size, total);
        if ClassAligned(total) { AlignedSuffices(total, h.mem[b].size); }
      }
    }
  }

  lemma CoreSound(h: Heap, s: Shape)
    requires Core(h, s)
    ensures Sound(h, s, NOBODY) && InRange(h.mem, s.blocks)
  {
    SoundRange(h, s, NOBODY);
    hide Sound;
  }

  lemma ClassIs(total: nat)
    ensures Class(total) == FirstLevel(64 * total) * 16 + SecondLevel(64 * total, FirstLevel(64 * total))
  {
  }

  lemma FreeSize(h: Heap, s: Shape, c: nat)
    requires Sound(h, s, NOBODY) && c in s.free
    ensures c < |h.mem| && MIN_BLOCK <= h.mem[c].size && 64 * h.mem[c].size < SPAN
  {
    FreeIsBlock(h, s, NOBODY, c);
    SoundFacts(h, s, NOBODY, c);
    hide Sound;
  }

  /** No block of a pool is as large as a request of 2^40 bytes, so such a request finds nothing. */
  lemma HugeFindsNothing(h: Heap, s: Shape, total: nat)
    requires Core(h, s) && 64 * total >= SPAN / 2
    ensures FindFor(h, total).Null?
  {
    hide Class, Core, FirstLevel, SecondLevel, Pow2, Log2;
    CoreSound(h, s);
    var fl := FirstLevel(64 * total);
    var sl := SecondLevel(64 * total, fl);
    HugeLevel(64 * total);
    FindLeast(h, s, NOBODY, fl, sl);
    var k := FoundClass(h, fl, sl);
    if k < CLASSES {
      HeadIsFree(h, s, NOBODY, k);
      FreeIsSmall(h, s, h.matrix[k].u);
    }
  }

  lemma HugeLevel(size: nat)
    requires size >= SPAN / 2
    ensures FirstLevel(size) == 40
  {
    hide Pow2, Log2;
    Span();
    assert Pow2(41) == 2 * Pow2(40) by { PowDouble(40); }
    LogBelow(size, 40);
  }

  lemma PowDouble(n: nat)
    ensures Pow2(n + 1) == 2 * Pow2(n)
  {
  }

  lemma FreeIsSmall(h: Heap, s: Shape, b: nat)
    requires Sound(h, s, NOBODY) && b in s.free && b < |h.mem|
    ensures Class(h.mem[b].size) < 640
  {
    hide Lists, Bits, PrevSizes, Pow2, Log2;
    FreeSize(h, s, b);
    var n := 64 * h.mem[b].size;
    ClassRange(n);
    Span();
    PowDouble(40);
    LogBelow(n, 40);
  }
}
