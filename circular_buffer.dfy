/**
 * The fixed-capacity ring buffer `gnc::CircularBuffer<T, N>`
 * (include/gnc_containers.hpp): a backing array of N elements, a start
 * position `s` and an element count `n`. Element 0 is always the oldest, and
 * pushing onto a full buffer overwrites the oldest element.
 */
module GncContainers {

  class CircularBuffer<T(0)> {
    /** The template capacity N. */
    const capacity: nat
    /** Backing array. */
    const buffer: array<T>
    /** Start position. */
    var s: nat
    /** Number of elements held. */
    var n: nat
    /** The elements held, oldest first. */
    ghost var Contents: seq<T>

    ghost predicate Valid()
      reads this, buffer
    {
      buffer.Length == capacity && capacity >= 1 && s < capacity && n <= capacity
      && |Contents| == n
      && forall i :: 0 <= i < n ==> Contents[i] == buffer[Slot(s, i, capacity)]
    }

    constructor(N: nat)
      requires N >= 1
      ensures Valid() && fresh(buffer)
      ensures capacity == N && Contents == []
    {
      capacity := N;
      buffer := new T[N];
      s := 0;
      n := 0;
      Contents := [];
    }

    /** `full`: holds exactly when the buffer holds N elements. */
    method Full() returns (b: bool)
      requires Valid()
      ensures b <==> |Contents| == capacity
    {
      b := n == capacity;
    }

    /** `empty`: holds exactly when the buffer holds nothing. */
    method Empty() returns (b: bool)
      requires Valid()
      ensures b <==> Contents == []
    {
      b := n == 0;
    }

    /** `size`: the number of elements held. */
    method Size() returns (k: nat)
      requires Valid()
      ensures k == |Contents| && k <= capacity
    {
      k := n;
    }

    /** `max_size`: the capacity N. */
    method MaxSize() returns (k: nat)
      requires Valid()
      ensures k == capacity && k >= |Contents|
    {
      k := capacity;
    }

    /** `operator[] const`: the i'th oldest element. */
    method Get(i: nat) returns (t: T)
      requires Valid() && i < |Contents|
      ensures t == Contents[i]
    {
      t := buffer[Slot(s, i, capacity)];
    }

    /** `operator[]`: write access to the i'th oldest element. */
    method Set(i: nat, t: T)
      requires Valid() && i < |Contents|
      modifies this, buffer
      ensures Valid() && s == old(s) && n == old(n)
      ensures Contents == old(Contents)[i := t]
    {
      buffer[Slot(s, i, capacity)] := t;
      Contents := Contents[i := t];
    }

    /** `push`: appends `t` as the newest element; on a full buffer the
      * oldest element is dropped to make room. */
    method Push(t: T)
      requires Valid()
      modifies this, buffer
      ensures Valid()
      ensures Contents == if |old(Contents)| < capacity then old(Contents) + [t] else old(Contents)[1..] + [t]
    {
      if n < capacity {
        buffer[Slot(s, n, capacity)] := t;
        n := n + 1;
        Contents := Contents + [t];
      } else {
        buffer[s] := t;
        s := Slot(s, 1, capacity);
        Contents := Contents[1..] + [t];
      }
    }

    /** `clear`: the buffer holds nothing; the start position is kept. */
    method Clear()
      requires Valid()
      modifies this
      ensures Valid() && Contents == [] && s == old(s)
    {
      n := 0;
      Contents := [];
    }
  }

  /** The array slot `i` places after the start `s`: `(s + i) % N` for the
    * offsets that occur, written without the modulus. */
  function Slot(s: nat, i: nat, N: nat): (k: nat)
    requires s < N && i <= N
    ensures k < N
    ensures (s + i) - k == 0 || (s + i) - k == N
  {
    if s + i < N then s + i else s + i - N
  }

  /** The scenario of the container test: capacity 3, pushes of 0, 1, 2 and
    * then 3, from a buffer whose start position may be anywhere. */
  method PushScenario(b: CircularBuffer<int>) returns (first: seq<int>, last: seq<int>)
    requires b.Valid() && b.capacity == 3 && b.Contents == []
    modifies b, b.buffer
    ensures first == [0, 1, 2] && last == [1, 2, 3]
  {
    b.Push(0);
    b.Push(1);
    b.Push(2);
    var full := b.Full();
    assert full;
    first := ReadAll(b);
    b.Push(3);
    last := ReadAll(b);
  }

  /** The element-by-element read of the test, oldest first. */
  method ReadAll<T(0)>(b: CircularBuffer<T>) returns (xs: seq<T>)
    requires b.Valid()
    ensures xs == b.Contents
  {
    var k := b.Size();
    xs := [];
    for i := 0 to k
      invariant xs == b.Contents[..i]
    {
      var x := b.Get(i);
      xs := xs + [x];
    }
  }
}
