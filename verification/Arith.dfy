/** Facts about products, remainders and finite collections of numbers that the solver does not find by itself. */
module Arith {

  lemma {:induction false} MulGrows(n: nat, x: nat)
    requires x >= 1
    ensures n * x >= n
  {
    if x > 1 {
      MulGrows(n, x - 1);
      assert n * x == n * (x - 1) + n;
    }
  }

  /** Only the multiple 0 lies strictly between -n and n. */
  lemma NoMultiple(n: nat, x: int)
    requires 0 < n && n * x < n && n * -x < n
    ensures x == 0
  {
    if x >= 1 { MulGrows(n, x); }
    if x <= -1 { MulGrows(n, -x); }
  }

  lemma DivMul(a: nat, b: nat)
    requires b > 0
    ensures a * b / b == a
  {
    var q := a * b / b;
    assert b * (a - q) == a * b % b;
    NoMultiple(b, a - q);
  }

  lemma MulMono(a: nat, b: nat, c: nat)
    requires a <= b
    ensures a * c <= b * c
  {
  }

  lemma ModSmall(n: nat, a: nat)
    requires n > 0
    ensures a < n ==> a % n == a
    ensures (a + n) % n == a % n
  {
    var k, m := a / n, (a + n) / n;
    assert n * (m - k - 1) == n * m - n * k - n == a % n - (a + n) % n;
    NoMultiple(n, m - k - 1);
  }

  ghost predicate Distinct(l: seq<nat>) { forall i, j :: 0 <= i < j < |l| ==> l[i] != l[j] }

  /** There are at most n numbers below n. */
  lemma {:induction false} AtMost(s: set<nat>, n: nat)
    requires forall x :: x in s ==> x < n
    ensures |s| <= n
  {
    if n == 0 {
      assert s == {};
    } else {
      AtMost(s - {n - 1}, n - 1);
      assert n - 1 in s ==> s == s - {n - 1} + {n - 1};
      assert n - 1 !in s ==> s == s - {n - 1};
    }
  }

  function Elements(l: seq<nat>): set<nat> {
    if l == [] then {} else Elements(l[..|l| - 1]) + {l[|l| - 1]}
  }

  lemma {:induction false} ElementsOf(l: seq<nat>)
    ensures forall x :: x in Elements(l) <==> x in l
    ensures Distinct(l) ==> |Elements(l)| == |l|
  {
    if l != [] {
      var init, last := l[..|l| - 1], l[|l| - 1];
      ElementsOf(init);
      InitMembers(l);
    }
  }

  lemma InitMembers(l: seq<nat>)
    requires l != []
    ensures forall x :: x in l <==> x in l[..|l| - 1] || x == l[|l| - 1]
    ensures Distinct(l) ==> Distinct(l[..|l| - 1]) && l[|l| - 1] !in l[..|l| - 1]
  {
    assert l == l[..|l| - 1] + [l[|l| - 1]];
  }
}
