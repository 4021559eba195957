/** `IncrementalIntSupplier`: a counter whose `get` returns the current value
    and then increments it, with Java's 32-bit wrap-around. */
module IncrementalIntSupplier {
  import opened Types

  /** The value the `n`-th `get` (counting from 0) returns. */
  function NthValue(start: Int32, n: nat): Int32
  {
    Wrap32(start + n)
  }

  /** Two different calls among the first `2^32` return different values:
      the counter repeats only after wrapping all the way round. */
  lemma DistinctUntilWrap(start: Int32, i: nat, j: nat)
    requires i < j < 0x1_0000_0000
    ensures NthValue(start, i) != NthValue(start, j)
  {
    var x := NthValue(start, i);
    assert (x - (start + i)) % 0x1_0000_0000 == 0;
    assert (x - (start + j)) % 0x1_0000_0000 != 0;
  }

  class IncrementalIntSupplier {
    /** The next value to return. */
    var value: Int32
    /** The start value and the number of calls so far, for the invariant. */
    ghost const start: Int32
    ghost var calls: nat

    ghost predicate Valid()
      reads this
    {
      value == NthValue(start, calls)
    }

    /** `new IncrementalIntSupplier(startValue)`. */
    constructor (startValue: Int32)
      ensures Valid() && start == startValue && calls == 0
      ensures value == startValue
    {
      value := startValue;
      start := startValue;
      calls := 0;
    }

    /** `get()`: `value++`. */
    method Get() returns (r: Int32)
      requires Valid()
      modifies this
      ensures Valid() && calls == old(calls) + 1
      ensures r == old(value) == NthValue(start, old(calls))
      ensures value == Wrap32(r + 1)
    {
      r := value;
      value := Wrap32(value + 1);
      calls := calls + 1;
      WrapStep(start, old(calls));
    }
  }

  /** Wrapping then adding one wraps the same as adding one first. */
  lemma WrapStep(start: Int32, n: nat)
    ensures Wrap32(NthValue(start, n) + 1) == NthValue(start, n + 1)
  {
    var x := NthValue(start, n);
    var d := (x - (start + n)) / 0x1_0000_0000;
    assert x == start + n + d * 0x1_0000_0000;
    assert (x + 1 - INT_MIN) % 0x1_0000_0000 == (start + n + 1 - INT_MIN) % 0x1_0000_0000;
  }
}
