/**
 * The fixed-capacity FIFO of ints that gotoken keeps boundary offsets in
 * (circularbuffer.go). Values live in a ring: an array, the index of the
 * oldest value (`shift`) and the number of values held (`size`). Pushing onto
 * a full buffer silently evicts the oldest value.
 */
module CircularBuffers {

  function Min(a: int, b: int): int { if a <= b then a else b }

  /** The newest min(|vs|, capacity) values of `vs`, oldest first. */
  function Last(vs: seq<int>, capacity: nat): seq<int>
  {
    if |vs| <= capacity then vs else vs[|vs| - capacity..]
  }

  /** The contents of a buffer of the given capacity holding `q` after one push of `v`. */
  function Pushed(q: seq<int>, capacity: nat, v: int): seq<int>
    requires 1 <= capacity && |q| <= capacity
  {
    if |q| == capacity then q[1..] + [v] else q + [v]
  }

  /** The contents after pushing every value of `vs`, in order, onto contents `q`. */
  function PushAll(q: seq<int>, capacity: nat, vs: seq<int>): seq<int>
    requires 1 <= capacity && |q| <= capacity
    decreases |vs|
  {
    if vs == [] then q
    else
      assert |Pushed(q, capacity, vs[0])| <= capacity;
      PushAll(Pushed(q, capacity, vs[0]), capacity, vs[1..])
  }

  /**
   * One push onto a buffer that holds the newest values of `w` leaves it
   * holding the newest values of `w + [v]`: the oldest value is evicted
   * exactly when the buffer was full.
   */
  lemma PushKeepsNewest(w: seq<int>, capacity: nat, v: int)
    requires 1 <= capacity
    ensures Pushed(Last(w, capacity), capacity, v) == Last(w + [v], capacity)
  {
    if |w| >= capacity {
      assert Last(w, capacity)[1..] + [v] == (w + [v])[|w| + 1 - capacity..];
    }
  }

  /**
   * Pushing any values onto a buffer that holds the newest values of `w`
   * leaves it holding the newest values of `w + vs`.
   */
  lemma {:induction false} PushAllKeepsNewest(w: seq<int>, capacity: nat, vs: seq<int>)
    requires 1 <= capacity
    ensures PushAll(Last(w, capacity), capacity, vs) == Last(w + vs, capacity)
    decreases |vs|
  {
    if vs == [] {
      assert w + vs == w;
    } else {
      var w' := w + [vs[0]];
      calc {
        PushAll(Last(w, capacity), capacity, vs);
      == { PushKeepsNewest(w, capacity, vs[0]); }
        PushAll(Last(w', capacity), capacity, vs[1..]);
      == { PushAllKeepsNewest(w', capacity, vs[1..]); }
        Last(w' + vs[1..], capacity);
      == { assert w' + vs[1..] == w + vs; }
        Last(w + vs, capacity);
      }
    }
  }

  /**
   * After k pushes into a fresh buffer, it holds the last min(k, capacity)
   * pushed values in push order.
   */
  lemma PushAllFromEmpty(capacity: nat, vs: seq<int>)
    requires 1 <= capacity
    ensures PushAll([], capacity, vs) == Last(vs, capacity)
  {
    PushAllKeepsNewest([], capacity, vs);
    assert [] + vs == vs;
  }

  /** The slot a position a < 2n lands on in a ring of n slots. */
  function Slot(a: int, n: int): int
  {
    if a < n then a else a - n
  }

  /** For 0 <= a < 2n, a % n is a itself or a - n. */
  lemma Wrap(a: int, n: int)
    requires 0 < n && 0 <= a < 2 * n
    ensures a % n == Slot(a, n)
  {
    if a < n {
      assert a == 0 * n + a;
    } else {
      assert a == 1 * n + (a - n);
    }
  }

  class CircularBuffer {
    var buffer: array<int>
    var shift: int
    var size: int
    /** The values held, oldest first. */
    ghost var Contents: seq<int>

    ghost predicate Valid()
      reads this, buffer
    {
      && 0 <= size <= buffer.Length
      && (if buffer.Length == 0 then shift == 0 else 0 <= shift < buffer.Length)
      && |Contents| == size
      && forall i :: 0 <= i < size ==> Contents[i] == buffer[Slot(shift + i, buffer.Length)]
    }

    /** makeCircularBuffer: an empty buffer of the given capacity, starting at slot 0. */
    constructor (capacity: int)
      requires capacity >= 0
      ensures Valid() && fresh(buffer)
      ensures buffer.Length == capacity && shift == 0 && Contents == []
    {
      buffer := new int[capacity];
      shift := 0;
      size := 0;
      Contents := [];
    }

    predicate Full()
      reads this, buffer
      requires Valid()
      ensures Full() <==> |Contents| == buffer.Length
    {
      size == buffer.Length
    }

    predicate Empty()
      reads this, buffer
      requires Valid()
      ensures Empty() <==> Contents == []
    {
      size == 0
    }

    /** Drops the oldest value; does nothing on an empty buffer. */
    method Pop()
      requires Valid()
      modifies this
      ensures Valid() && buffer == old(buffer)
      ensures Contents == if old(Contents) == [] then old(Contents) else old(Contents)[1..]
    {
      if !Empty() {
        ghost var n := buffer.Length;
        ghost var s := shift;
        size := size - 1;
        Wrap(shift + 1, n);
        shift := (shift + 1) % buffer.Length;
        Contents := Contents[1..];
        forall i | 0 <= i < size
          ensures Contents[i] == buffer[Slot(shift + i, n)]
        {
          Wrap(s + i + 1, n);
          Wrap(shift + i, n);
        }
      }
    }

    /** Appends `value`, first evicting the oldest value when the buffer is full. */
    method Push(value: int)
      requires Valid() && buffer.Length >= 1
      modifies this, buffer
      ensures Valid() && buffer == old(buffer)
      ensures Contents == Pushed(old(Contents), buffer.Length, value)
    {
      if Full() {
        Pop();
      }
      ghost var n := buffer.Length;
      ghost var q := Contents;
      Wrap(size + shift, n);
      var slot := (size + shift) % buffer.Length;
      buffer[slot] := value;
      assert forall i :: 0 <= i < size ==> q[i] == buffer[Slot(shift + i, n)];
      size := size + 1;
      Contents := q + [value];
    }

    /**
     * The oldest value and, in a new sequence, every other value in
     * insertion order; the buffer is left as it was.
     */
    method Extract() returns (left: int, right: seq<int>)
      requires Valid() && size >= 1
      ensures left == Contents[0]
      ensures right == Contents[1..]
    {
      Wrap(shift, buffer.Length);
      left := buffer[shift];
      var rest := new int[size - 1];
      for i := 1 to size
        invariant forall k :: 1 <= k < i ==> rest[k - 1] == Contents[k]
      {
        Wrap(shift + i, buffer.Length);
        rest[i - 1] := buffer[(shift + i) % buffer.Length];
      }
      right := rest[..];
    }
  }
}
