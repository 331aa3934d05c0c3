/**
 * The growable arrays of apebuild.h (ape_da_append, ape_da_append_many and
 * ape_cmd_append, which is ape_da_append_many over an argument literal).
 * A dynamic array holds `count` items in a buffer of `capacity` slots; the
 * buffer starts empty, jumps to 256 slots on first growth and afterwards
 * only doubles.
 */
module DynArray {

  /** APE_DA_INIT_CAP */
  const InitCap: nat := 256

  /** The capacities the growth policy can produce: 0, 256, 512, 1024, ... */
  predicate Reachable(c: nat)
    decreases c
  {
    c == 0 || c == InitCap || (c > InitCap && c % 2 == 0 && Reachable(c / 2))
  }

  /** Capacity after the growth test of ape_da_append, which grows when count + 1 >= capacity. */
  function GrowForOne(capacity: nat, count: nat): (c: nat)
    requires count <= capacity
    requires Reachable(capacity)
    ensures Reachable(c) && count < c
    ensures capacity <= c
    ensures count + 1 < capacity ==> c == capacity
    ensures count + 1 >= capacity ==> c == (if capacity == 0 then InitCap else 2 * capacity)
  {
    if count + 1 >= capacity then
      var c := if capacity == 0 then InitCap else capacity * 2;
      DoubleReachable(capacity);
      c
    else capacity
  }

  /** Capacity after the doubling loop of ape_da_append_many. */
  function GrowForMany(capacity: nat, count: nat, n: nat): (c: nat)
    requires Reachable(capacity)
    ensures Reachable(c) && count + n <= c
    ensures capacity <= c
    ensures count + n <= capacity ==> c == capacity
    ensures count + n > capacity ==> c == InitCap || c < 2 * (count + n)
  {
    if count + n > capacity then
      DoubleUntil(if capacity == 0 then InitCap else capacity, count + n)
    else capacity
  }

  /** The smallest value of c, 2c, 4c, ... that holds `need` items. */
  function DoubleUntil(c: nat, need: nat): (r: nat)
    requires c > 0 && Reachable(c)
    ensures Reachable(r) && need <= r && c <= r
    ensures c < need ==> r < 2 * need
    ensures need <= c ==> r == c
    decreases need - c
  {
    if need <= c then c
    else
      DoubleReachable(c);
      DoubleUntil(c * 2, need)
  }

  /** Doubling a reachable capacity, or growing 0 to 256, stays reachable. */
  lemma DoubleReachable(c: nat)
    requires Reachable(c)
    ensures Reachable(if c == 0 then InitCap else 2 * c)
  {
    if c != 0 {
      assert (2 * c) / 2 == c;
    }
  }

  /** Every reachable non-zero capacity is 256 times a power of two. */
  lemma {:induction false} ReachableIsPowerMultiple(c: nat)
    requires Reachable(c) && c != 0
    ensures c % InitCap == 0 && c >= InitCap
    decreases c
  {
    if c != InitCap {
      ReachableIsPowerMultiple(c / 2);
    }
  }

  /** Concatenation is associative: the step that ties an appended buffer to its specification. */
  lemma Assoc<T>(a: seq<T>, b: seq<T>, c: seq<T>)
    ensures (a + b) + c == a + (b + c)
  {
  }

  class Vec<T> {
    var items: seq<T>
    var capacity: nat

    ghost predicate Valid()
      reads this
    {
      |items| <= capacity && Reachable(capacity)
    }

    /** A zero-initialised array: `{ 0 }` in C. */
    constructor ()
      ensures Valid() && items == [] && capacity == 0
    {
      items := [];
      capacity := 0;
    }

    /** ape_da_append: grow when count + 1 >= capacity, then store x at index count. */
    method Append(x: T)
      requires Valid()
      modifies this
      ensures Valid()
      ensures items == old(items) + [x]
      ensures capacity == GrowForOne(old(capacity), old(|items|))
      ensures |items| < capacity
    {
      if |items| + 1 >= capacity {
        capacity := if capacity == 0 then InitCap else capacity * 2;
        DoubleReachable(old(capacity));
      }
      items := items + [x];
    }

    /** ape_da_append_many: grow to 256 and double until the n new items fit, then copy them. */
    method AppendMany(xs: seq<T>)
      requires Valid()
      modifies this
      ensures Valid()
      ensures items == old(items) + xs
      ensures capacity == GrowForMany(old(capacity), old(|items|), |xs|)
    {
      var need := |items| + |xs|;
      if need > capacity {
        ghost var target := GrowForMany(capacity, |items|, |xs|);
        if capacity == 0 {
          capacity := InitCap;
        }
        while need > capacity
          invariant items == old(items)
          invariant capacity > 0 && Reachable(capacity)
          invariant DoubleUntil(capacity, need) == target
          decreases need - capacity
        {
          DoubleReachable(capacity);
          capacity := capacity * 2;
        }
      }
      items := items + xs;
    }
  }
}
