/** The registry of one function: a main block, a growing extension block and their common counter (src/libsrpc.c). */
module Registry {
  import opened Arith

  /** LIBSRPC_RFMB_SZ and LIBSRPC_RFEB_SZ. */
  const MAIN_SIZE: nat := 8
  const EXT_STEP: nat := 32
  const TRIES: nat := 10

  datatype Entry = Empty | Used(proc: nat)

  /** How often p is registered, and how many entries are used at all. */
  function Times(s: seq<Entry>, p: nat): nat {
    if s == [] then 0 else (if s[0] == Used(p) then 1 else 0) + Times(s[1..], p)
  }

  function UsedIn(s: seq<Entry>): nat {
    if s == [] then 0 else (if s[0].Used? then 1 else 0) + UsedIn(s[1..])
  }

  lemma {:induction false} UsedJoined(s: seq<Entry>, t: seq<Entry>)
    ensures UsedIn(s + t) == UsedIn(s) + UsedIn(t)
    ensures forall p :: Times(s + t, p) == Times(s, p) + Times(t, p)
  {
    if s == [] {
      assert s + t == t;
    } else {
      UsedJoined(s[1..], t);
      assert (s + t)[1..] == s[1..] + t;
    }
  }

  lemma {:induction false} Replaced(s: seq<Entry>, i: nat, e: Entry)
    requires i < |s|
    ensures UsedIn(s[i := e]) + (if s[i].Used? then 1 else 0) == UsedIn(s) + (if e.Used? then 1 else 0)
    ensures forall p ::
      Times(s[i := e], p) + (if s[i] == Used(p) then 1 else 0) == Times(s, p) + (if e == Used(p) then 1 else 0)
  {
    if i > 0 {
      Replaced(s[1..], i - 1, e);
      assert s[i := e][1..] == s[1..][i - 1 := e];
    } else {
      assert s[0 := e][1..] == s[1..];
    }
  }

  lemma {:induction false} UsedBound(s: seq<Entry>)
    ensures UsedIn(s) <= |s|
    ensures (forall i :: 0 <= i < |s| ==> s[i].Used?) ==> UsedIn(s) == |s|
    ensures (forall i :: 0 <= i < |s| ==> s[i].Empty?) ==> UsedIn(s) == 0 && forall p :: Times(s, p) == 0
  {
    if s != [] { UsedBound(s[1..]); }
  }

  lemma {:induction false} FewerUsed(s: seq<Entry>)
    requires exists i :: 0 <= i < |s| && s[i].Empty?
    ensures UsedIn(s) < |s|
  {
    if s[0].Empty? {
      UsedBound(s[1..]);
    } else {
      var i :| 0 <= i < |s| && s[i].Empty?;
      assert s[1..][i - 1].Empty?;
      FewerUsed(s[1..]);
    }
  }

  /** Empty entries at the end change nothing. */
  lemma Extended(s: seq<Entry>, tail: seq<Entry>)
    requires forall i :: 0 <= i < |tail| ==> tail[i].Empty?
    ensures UsedIn(s + tail) == UsedIn(s) && forall p :: Times(s + tail, p) == Times(s, p)
  {
    UsedJoined(s, tail);
    UsedBound(tail);
  }

  lemma FindEmpty(s: seq<Entry>) returns (i: nat)
    requires UsedIn(s) < |s|
    ensures i < |s| && s[i].Empty?
  {
    UsedBound(s);
    i :| i < |s| && s[i].Empty?;
  }

  lemma {:induction false} NotThere(s: seq<Entry>, p: nat)
    requires forall i :: 0 <= i < |s| ==> s[i] != Used(p)
    ensures Times(s, p) == 0
  {
    if s != [] { NotThere(s[1..], p); }
  }

  /** The k-th used entry, as the sending loop counts them. */
  function Kth(s: seq<Entry>, k: nat): (e: Entry)
    requires k < UsedIn(s)
    ensures e.Used?
  {
    if s[0].Used? then (if k == 0 then s[0] else Kth(s[1..], k - 1)) else Kth(s[1..], k)
  }

  /** The process that ticket t goes to. */
  function Chosen(s: seq<Entry>, t: nat): Entry
    requires UsedIn(s) > 0
  {
    Kth(s, t % UsedIn(s))
  }

  lemma {:induction false} KthJoined(s: seq<Entry>, t: seq<Entry>, k: nat)
    requires k < UsedIn(s) + UsedIn(t)
    ensures UsedIn(s + t) == UsedIn(s) + UsedIn(t)
    ensures Kth(s + t, k) == if k < UsedIn(s) then Kth(s, k) else Kth(t, k - UsedIn(s))
  {
    UsedJoined(s, t);
    if s == [] {
      assert s + t == t;
    } else {
      assert (s + t)[1..] == s[1..] + t;
      if !(s[0].Used? && k == 0) { KthJoined(s[1..], t, if s[0].Used? then k - 1 else k); }
    }
  }

  /** One more entry of a prefix. */
  lemma Longer(s: seq<Entry>, i: nat, k: nat)
    requires i < |s|
    ensures UsedIn(s[..i + 1]) == UsedIn(s[..i]) + (if s[i].Used? then 1 else 0)
    ensures k < UsedIn(s[..i]) ==> Kth(s[..i + 1], k) == Kth(s[..i], k)
    ensures s[i].Used? && k == UsedIn(s[..i]) ==> Kth(s[..i + 1], k) == s[i]
  {
    assert s[..i + 1] == s[..i] + [s[i]];
    UsedJoined(s[..i], [s[i]]);
    if k < UsedIn(s[..i + 1]) { KthJoined(s[..i], [s[i]], k); }
  }

  lemma Whole(s: seq<Entry>, i: nat, k: nat)
    requires i <= |s| && k < UsedIn(s[..i])
    ensures k < UsedIn(s) && Kth(s, k) == Kth(s[..i], k)
  {
    assert s == s[..i] + s[i..];
    UsedJoined(s[..i], s[i..]);
    KthJoined(s[..i], s[i..], k);
  }

  /** libsrpc_rpc_func_t. */
  class Function {
    const main: array<Entry>
    var ext: array?<Entry>
    var num: nat

    ghost predicate Valid()
      reads this, main, ext
    {
      main.Length == MAIN_SIZE && ext != main && num == UsedIn(Entries())
    }

    ghost function Entries(): seq<Entry>
      reads this, main, ext
    {
      main[..] + Extension()
    }

    ghost function Extension(): seq<Entry>
      reads this, ext
    {
      if ext == null then [] else ext[..]
    }

    constructor ()
      ensures Valid() && fresh(main) && ext == null && forall p :: Times(Entries(), p) == 0
    {
      main := new Entry[MAIN_SIZE](_ => Empty);
      ext := null;
      num := 0;
      new;
      UsedBound(Entries());
    }

    /** Put p into the first empty entry of a block. */
    method Fill(a: array<Entry>, p: nat) returns (ok: bool)
      requires Valid() && (a == main || a == ext)
      modifies this`num, main, ext
      ensures Valid()
      ensures forall q :: Times(Entries(), q) == old(Times(Entries(), q)) + (if ok && q == p then 1 else 0)
      ensures ok == exists i :: 0 <= i < a.Length && old(a[i]).Empty?
      ensures !ok ==> num == old(num) && Entries() == old(Entries())
    {
      for i := 0 to a.Length
        invariant forall j :: 0 <= j < i ==> a[j].Used?
      {
        if a[i].Empty? {
          ghost var before, k := Entries(), if a == main then i as int else MAIN_SIZE + i;
          a[i] := Used(p);
          num := num + 1;
          assert Entries() == before[k := Used(p)];
          Replaced(before, k, Used(p));
          return true;
        }
      }
      return false;
    }

    /** libsrpc_regfn_ext_block: a larger extension block with the old entries in front, if there is memory. */
    method Grow(memory: bool) returns (ok: bool)
      requires Valid()
      modifies this`ext
      ensures Valid() && ok == memory
      ensures !ok ==> ext == old(ext)
      ensures ok ==> fresh(ext) && ext != null && ext.Length == |old(Extension())| + EXT_STEP
      ensures forall q :: Times(Entries(), q) == old(Times(Entries(), q))
      ensures ok ==> exists i :: 0 <= i < ext.Length && ext[i].Empty?
    {
      hide Times, UsedIn;
      if !memory { return false; }
      var size := if ext == null then 0 else ext.Length;
      var eb := new Entry[size + EXT_STEP](_ => Empty);
      forall i | 0 <= i < size { eb[i] := ext[i]; }
      ghost var before, tail := Entries(), eb[size..];
      assert eb[..] == Extension() + tail;
      ext := eb;
      assert Entries() == before + tail;
      Extended(before, tail);
      assert ext[size].Empty?;
      return true;
    }

    /** One of the first ten attempts to allocate succeeds. */
    ghost predicate SomeMemory(memory: seq<bool>, n: nat) {
      exists j :: 0 <= j < n && j < |memory| && memory[j]
    }

    ghost predicate HasEmpty(s: seq<Entry>) { exists i :: 0 <= i < |s| && s[i].Empty? }

    /**
     * libsrpc_regfn_insert; `memory` says which attempts to allocate succeed. It refuses with empty entries
     * left in the extension block when the counter, which covers both blocks, has reached that block's size.
     */
    method Insert(p: nat, memory: seq<bool>) returns (ok: bool)
      requires Valid()
      modifies this, main, ext
      ensures Valid()
      ensures forall q :: Times(Entries(), q) == old(Times(Entries(), q)) + (if ok && q == p then 1 else 0)
      ensures ok <==>
        old(HasEmpty(main[..])) || old(ext != null && num < ext.Length) || SomeMemory(memory, TRIES)
      ensures !ok ==> num == old(num) && ext == old(ext)
      ensures !ok && ext != null ==> ext.Length <= num && (HasEmpty(ext[..]) <==> num < MAIN_SIZE + ext.Length)
    {
      ok := Fill(main, p);
      if ok {
        assert exists i :: 0 <= i < main.Length && old(main[..])[i].Empty?;
        return;
      }
      assert !HasEmpty(old(main[..]));
      for j := 0 to TRIES
        invariant Valid() && !ok && num == old(num) && ext == old(ext) && Entries() == old(Entries())
        invariant j > 0 ==> ext == null || num >= ext.Length
        invariant !SomeMemory(memory, j)
      {
        if ext == null || num >= ext.Length {
          var grown := Grow(j < |memory| && memory[j]);
          if !grown { continue; }
        } else {
          SomeEmpty();
        }
        ok := Fill(ext, p);
        if ok { return; }
      }
      assert main[..] == Entries()[..MAIN_SIZE] == old(Entries()[..MAIN_SIZE]) == old(main[..]);
      if ext != null { EmptyInExtension(); }
    }

    /** With a full main block the counter tells how full the extension block is. */
    lemma EmptyInExtension()
      requires Valid() && ext != null && !HasEmpty(main[..])
      ensures HasEmpty(ext[..]) <==> num < MAIN_SIZE + ext.Length
    {
      UsedJoined(main[..], ext[..]);
      UsedBound(main[..]);
      UsedBound(ext[..]);
      if num < MAIN_SIZE + ext.Length {
        var i := FindEmpty(ext[..]);
        assert ext[..][i].Empty?;
      }
      if HasEmpty(ext[..]) { FewerUsed(ext[..]); }
    }

    /** The counter covers both blocks, so a counter below the extension's size leaves room there. */
    lemma SomeEmpty()
      requires Valid() && ext != null && num < ext.Length
      ensures exists i :: 0 <= i < ext.Length && ext[i].Empty?
    {
      UsedJoined(main[..], ext[..]);
      var i := FindEmpty(ext[..]);
      assert ext[i].Empty?;
    }

    /** Clear every entry of p in one block. */
    method Clear(a: array<Entry>, p: nat)
      requires Valid() && (a == main || a == ext)
      modifies this`num, main, ext
      ensures Valid() && ext == old(ext) && forall i :: 0 <= i < a.Length ==> a[i] != Used(p)
      ensures forall q :: q != p ==> Times(Entries(), q) == old(Times(Entries(), q))
      ensures forall i :: 0 <= i < a.Length ==> a[i] == if old(a[i]) == Used(p) then Empty else old(a[i])
      ensures a == ext ==> main[..] == old(main[..])
    {
      for i := 0 to a.Length
        invariant Valid() && forall j :: 0 <= j < i ==> a[j] == if old(a[j]) == Used(p) then Empty else old(a[j])
        invariant forall j :: i <= j < a.Length ==> a[j] == old(a[j])
        invariant forall q :: q != p ==> Times(Entries(), q) == old(Times(Entries(), q))
        invariant a == ext ==> main[..] == old(main[..])
      {
        if a[i] == Used(p) {
          ghost var before, k := Entries(), if a == main then i as int else MAIN_SIZE + i;
          Replaced(before, k, Empty);
          a[i] := Empty;
          assert Entries() == before[k := Empty];
          num := num - 1;
        }
      }
    }

    /** libsrpc_regfn_remove. */
    method Remove(p: nat)
      requires Valid()
      modifies this`num, main, ext
      ensures Valid() && forall q :: Times(Entries(), q) == if q == p then 0 else old(Times(Entries(), q))
    {
      Clear(main, p);
      if ext != null { Clear(ext, p); }
      assert forall i :: 0 <= i < |Entries()| ==> Entries()[i] != Used(p);
      NotThere(Entries(), p);
    }

    /** One block in the sending loop: only the used entry number `pos` is tried, `passed` counts them. */
    method TryInTurn(a: array<Entry>, pos: nat, passed: nat, up: set<nat>) returns (n: nat, tried: seq<nat>, sent: bool)
      ensures tried == if passed <= pos < passed + UsedIn(a[..]) then [Kth(a[..], pos - passed).proc] else []
      ensures sent == (tried != [] && tried[0] in up)
      ensures !sent ==> n == passed + UsedIn(a[..])
    {
      n, tried, sent := passed, [], false;
      assert a[..0] == [];
      for i := 0 to a.Length
        invariant n == passed + UsedIn(a[..i]) && !sent
        invariant tried == if passed <= pos < n then [Kth(a[..i], pos - passed).proc] else []
        invariant tried != [] ==> tried[0] !in up
      {
        Longer(a[..], i, if passed <= pos then pos - passed else 0);
        if a[i].Used? {
          n := n + 1;
          if pos == n - 1 {
            tried := tried + [a[i].proc];
            if a[i].proc in up {
              Whole(a[..], i + 1, pos - passed);
              return n, tried, true;
            }
          }
        }
      }
      assert a[..a.Length] == a[..];
    }

    /**
     * The counting loops of libsrpc_send_request for RPC_SEND_RR over both blocks; `retnum` is the number of
     * entries counted when the request was made, and `up` are the processes that take a request.
     */
    method SendInTurn(ticket: nat, retnum: nat, up: set<nat>) returns (tried: seq<nat>, sent: bool)
      requires Valid()
      ensures var pos := ticket % (if retnum > 1 then retnum else 1);
              tried == if pos < num then [Kth(Entries(), pos).proc] else []
      ensures sent == (tried != [] && tried[0] in up)
      ensures retnum == num > 0 ==> tried == [Chosen(Entries(), ticket).proc]
    {
      var pos := ticket % (if retnum > 1 then retnum else 1);
      ghost var tail := Extension();
      UsedJoined(main[..], tail);
      if pos < num { KthJoined(main[..], tail, pos); }
      var n: nat;
      n, tried, sent := TryInTurn(main, pos, 0, up);
      if !sent && ext != null {
        var more: seq<nat>;
        n, more, sent := TryInTurn(ext, pos, n, up);
        tried := tried + more;
      }
    }
  }

  // ---------------------------------------------------------------- round robin

  /** How many of the tickets from, from + 1, ..., from + m - 1 go to p. */
  function Tickets(s: seq<Entry>, p: nat, from: nat, m: nat): nat
    requires UsedIn(s) > 0
  {
    if m == 0 then 0 else Tickets(s, p, from, m - 1) + (if Chosen(s, from + m - 1) == Used(p) then 1 else 0)
  }

  /** How many of the first m used entries are p's. */
  function Firsts(s: seq<Entry>, p: nat, m: nat): nat
    requires m <= UsedIn(s)
  {
    if m == 0 then 0 else Firsts(s, p, m - 1) + (if Kth(s, m - 1) == Used(p) then 1 else 0)
  }

  lemma {:induction false} FirstsTail(s: seq<Entry>, p: nat, m: nat)
    requires s != [] && m <= UsedIn(s[1..])
    ensures s[0].Used? ==> Firsts(s, p, m + 1) == (if s[0] == Used(p) then 1 else 0) + Firsts(s[1..], p, m)
    ensures s[0].Empty? ==> Firsts(s, p, m) == Firsts(s[1..], p, m)
  {
    if m > 0 { FirstsTail(s, p, m - 1); }
  }

  lemma {:induction false} FirstsAll(s: seq<Entry>, p: nat)
    ensures Firsts(s, p, UsedIn(s)) == Times(s, p)
  {
    if s != [] {
      FirstsAll(s[1..], p);
      FirstsTail(s, p, UsedIn(s[1..]));
    }
  }

  lemma {:induction false} TicketsFromZero(s: seq<Entry>, p: nat, m: nat)
    requires UsedIn(s) > 0 && m <= UsedIn(s)
    ensures Tickets(s, p, 0, m) == Firsts(s, p, m)
  {
    if m > 0 {
      TicketsFromZero(s, p, m - 1);
      ModSmall(UsedIn(s), m - 1);
    }
  }

  lemma {:induction false} TicketsShift(s: seq<Entry>, p: nat, from: nat, m: nat)
    requires UsedIn(s) > 0
    ensures Tickets(s, p, from, m + 1) == (if Chosen(s, from) == Used(p) then 1 else 0) + Tickets(s, p, from + 1, m)
  {
    if m > 0 { TicketsShift(s, p, from, m - 1); }
  }

  /** While the registry stays as it is, any n consecutive tickets reach each of the n entries once. */
  lemma {:induction false} RoundRobinIsFair(s: seq<Entry>, p: nat, from: nat)
    requires UsedIn(s) > 0
    ensures Tickets(s, p, from, UsedIn(s)) == Times(s, p)
  {
    var n := UsedIn(s);
    if from == 0 {
      TicketsFromZero(s, p, n);
      FirstsAll(s, p);
    } else {
      RoundRobinIsFair(s, p, from - 1);
      TicketsShift(s, p, from - 1, n);
      ModSmall(n, from - 1);
    }
  }
}
