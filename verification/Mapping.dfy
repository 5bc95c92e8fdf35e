/** The size-to-class map of the TLSF allocator (libs/tlsf_txn/tlsf_txn.c:96-123). */
module Mapping {

  const FLI_MAX: nat := 41
  const SLI_COUNT: nat := 4
  const SLI_SIZE: nat := 16
  const CLASSES: nat := 656

  function Pow2(n: nat): (p: nat)
    ensures p >= 1
  {
    if n == 0 then 1 else 2 * Pow2(n - 1)
  }

  /** 63 - clz(n): the index of the highest set bit. */
  function Log2(n: nat): (r: nat)
    requires n > 0
    ensures Pow2(r) <= n < Pow2(r + 1)
  {
    if n == 1 then 0 else 1 + Log2(n / 2)
  }

  function FirstLevel(size: nat): (fl: nat)
    ensures fl < FLI_MAX
  {
    if size == 0 then 0
    else if Log2(size) >= FLI_MAX then FLI_MAX - 1
    else Log2(size)
  }

  function SecondLevel(size: nat, fl: nat): (sl: nat)
    ensures sl < SLI_SIZE
  {
    if fl < SLI_COUNT then 0 else size / Pow2(fl - SLI_COUNT + 1) % SLI_SIZE
  }

  /** The free-list class of a block of `units` 64-byte units, as one index fl * 16 + sl. */
  function Class(units: nat): (k: nat)
    ensures k < CLASSES
  {
    var fl := FirstLevel(64 * units);
    fl * SLI_SIZE + SecondLevel(64 * units, fl)
  }
}
