/** `Utility::Enumerate` of `include/enumerate.hpp` and the identical
    adapter of `include/utility/pythonian/enumerate.hpp`: a range-for
    adapter pairing each element with its index. The iterators become an
    index into the sequence the adapter copied. */
module Enumerating {

  class Enumerate<T> {
    const items: seq<T>
    var count: nat
    var position: nat

    /** The counter equals the number of elements passed. */
    ghost predicate Valid()
      reads this
    {
      count == position <= |items|
    }

    /** `Enumerate(iter)`: the counter at 0, the position at the start. */
    constructor (items: seq<T>)
      ensures this.items == items && count == 0 && position == 0
      ensures Valid()
    {
      this.items := items;
      count := 0;
      position := 0;
    }

    /** `operator!=`: the operand is ignored; true while the position is
        before the end. */
    function NotAtEnd(): (r: bool)
      reads this
      ensures r <==> position != |items|
    {
      position != |items|
    }

    /** `operator++`: the position and the counter advance together. */
    method Next()
      requires Valid() && position < |items|
      modifies this
      ensures position == old(position) + 1 && count == old(count) + 1
      ensures Valid()
    {
      position := position + 1;
      count := count + 1;
    }

    /** `operator*`: the counter and the element at the position. */
    function Current(): (r: (nat, T))
      requires Valid() && position < |items|
      reads this
      ensures r == (position, items[position])
    {
      (count, items[position])
    }
  }

  /** A range-for over `enumerate(items)`: begin, then test, dereference
      and advance until the test fails. Each element is visited once, in
      order, paired with its index. */
  method Visit<T>(items: seq<T>) returns (visited: seq<(nat, T)>)
    ensures |visited| == |items|
    ensures forall i :: 0 <= i < |items| ==> visited[i] == (i, items[i])
  {
    var e := new Enumerate(items);
    visited := [];
    while e.NotAtEnd()
      invariant e.Valid() && e.items == items
      invariant |visited| == e.position
      invariant forall i :: 0 <= i < |visited| ==> visited[i] == (i, items[i])
      decreases |items| - e.position
    {
      visited := visited + [e.Current()];
      e.Next();
    }
  }
}
