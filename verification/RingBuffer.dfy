/** Arithmetic modulo a variable bound, as the ring buffer needs it. */
module Modular {

  lemma ModUnique(x: int, m: int, q: int, r: int)
    requires 0 <= r < m && x == q * m + r
    ensures x % m == r
  {
    var d := q - x / m;
    assert d * m == x % m - r by {
      assert x == (x / m) * m + x % m;
      assert d * m == q * m - (x / m) * m;
    }
    MultipleSize(d, m);
  }

  lemma MultipleSize(d: int, m: int)
    requires 0 < m
    ensures d >= 1 ==> d * m >= m
    ensures d <= -1 ==> d * m <= -m
  {
  }

  lemma ModOfMultiple(x: int, m: int, k: int)
    requires 0 < m && 0 < k
    ensures 0 < k * m && (x % (k * m)) % m == x % m
  {
    MultipleSize(k, m);
    var n := k * m;
    var q, r := x / n, x % n;
    var s, t := r / m, r % m;
    assert x == q * n + r && r == s * m + t;
    Regroup(q, k, s, m);
    ModUnique(x, m, q * k + s, t);
  }

  lemma Regroup(q: int, k: int, s: int, m: int)
    ensures q * (k * m) + s * m == (q * k + s) * m
  {
  }

  lemma ModAdd(a: int, b: int, m: int)
    requires 0 < m
    ensures (a % m + b) % m == (a + b) % m
  {
    var c := a % m + b;
    assert c == (c / m) * m + c % m;
    assert a + b == (a / m + c / m) * m + c % m;
    ModUnique(a + b, m, a / m + c / m, c % m);
  }

  lemma ModDistinct(x: int, y: int, m: int)
    requires x < y < x + m
    ensures x % m != y % m
  {
    var r := x % m;
    var d := y - x;
    ModAdd(x, d, m);
    if r + d < m {
      ModUnique(r + d, m, 0, r + d);
    } else {
      ModUnique(r + d, m, 1, r + d - m);
    }
  }
}

/** A fixed ring whose two indices run modulo twice its capacity, so that full and empty differ.
    An index masked with m - 1 is written as its remainder modulo the power of two m, and an
    index with its capacity bit flipped as the index half way round. */
module RingBuffer {
  import opened Modular

  const SIZE_T_RANGE := 0x1_0000_0000

  /** A value as a size_t holds it. */
  function SizeT(x: int): (r: nat)
  {
    x % SIZE_T_RANGE
  }

  function Masked(x: int, m: int): (r: int)
    requires 0 < m
    ensures 0 <= r < m
  {
    x % m
  }

  /** The index x with the capacity bit flipped. */
  function Flipped(x: int, capacity: int): int {
    if x < capacity then x + capacity else x - capacity
  }

  /** How far index e is ahead of index b, both below m. */
  function Gap(b: nat, e: nat, m: nat): nat
    requires b < m && e < m
  {
    if b <= e then e - b else e - b + m
  }

  lemma GapIsMasked(b: nat, e: nat, m: nat)
    requires b < m && e < m
    ensures Masked(e - b, m) == Gap(b, e, m)
  {
  }

  function Next(x: nat, m: nat): nat {
    if x + 1 < m then x + 1 else 0
  }

  function Previous(x: nat, m: nat): nat
    requires x < m
  {
    if 0 < x then x - 1 else m - 1
  }

  /** The n slots of data from index b on, round and round. */
  function View<T>(data: seq<T>, b: nat, n: nat): (s: seq<T>)
    requires 0 < |data|
    ensures |s| == n
  {
    seq(n, i requires 0 <= i => data[Masked(b + i, |data|)])
  }

  /** Indices a whole turn, or two, apart use the same slot. */
  lemma SameSlot(x: int, y: int, capacity: nat)
    requires 0 < capacity && (x == y || x + 2 * capacity == y)
    ensures Masked(x, capacity) == Masked(y, capacity)
  {
    var q := y / capacity;
    assert y == q * capacity + y % capacity;
    assert y - 2 * capacity == (q - 2) * capacity + y % capacity;
    ModUnique(y - 2 * capacity, capacity, q - 2, y % capacity);
  }

  lemma ViewWithoutFirst<T>(data: seq<T>, b: nat, n: nat)
    requires 0 < |data| && b < 2 * |data| && 0 < n
    ensures View(data, Next(b, 2 * |data|), n - 1) == View(data, b, n)[1..]
  {
    var c := Next(b, 2 * |data|);
    forall i | 0 <= i < n - 1 ensures View(data, c, n - 1)[i] == View(data, b, n)[1..][i] {
      SameSlot(c + i, b + (i + 1), |data|);
    }
  }

  lemma ViewWithLast<T>(data: seq<T>, b: nat, n: nat, x: T)
    requires n < |data|
    ensures View(data[Masked(b + n, |data|) := x], b, n + 1) == View(data, b, n) + [x]
  {
    var s := View(data[Masked(b + n, |data|) := x], b, n + 1);
    forall i | 0 <= i < n ensures s[i] == View(data, b, n)[i] {
      ModDistinct(b + i, b + n, |data|);
      assert Masked(b + i, |data|) != Masked(b + n, |data|);
    }
  }

  lemma ViewWithFirst<T>(data: seq<T>, b: nat, n: nat, x: T)
    requires n < |data| && b < 2 * |data|
    ensures var c := Previous(b, 2 * |data|);
            View(data[Masked(c, |data|) := x], c, n + 1) == [x] + View(data, b, n)
  {
    var c := Previous(b, 2 * |data|);
    var s := View(data[Masked(c, |data|) := x], c, n + 1);
    forall i | 0 < i < n + 1 ensures s[i] == ([x] + View(data, b, n))[i] {
      ModDistinct(c, c + i, |data|);
      SameSlot(b + (i - 1), c + i, |data|);
    }
  }

  class PotRingbuffer<T(0)> {
    const capacity: nat
    const mData: array<T>
    var mBegin: nat
    var mEnd: nat

    /** A capacity twice of which divides the range of size_t is a power of two. */
    ghost predicate Shape()
      reads this
    {
      && 0 < capacity == mData.Length
      && SIZE_T_RANGE % (2 * capacity) == 0
      && mBegin < 2 * capacity
      && mEnd < 2 * capacity
    }

    ghost predicate Valid()
      reads this
    {
      Shape() && Gap(mBegin, mEnd, 2 * capacity) <= capacity
    }

    ghost function Contents(): (s: seq<T>)
      reads this, mData
      requires Valid()
    {
      View(mData[..], mBegin, Gap(mBegin, mEnd, 2 * capacity))
    }

    constructor Init(capacity: nat, data: array<T>)
      requires 0 < capacity == data.Length && SIZE_T_RANGE % (2 * capacity) == 0
      ensures Valid() && Contents() == []
      ensures this.capacity == capacity && mData == data
    {
      this.capacity := capacity;
      mData := data;
      mBegin, mEnd := 0, 0;
    }

    /** A size_t computation masked with m - 1 is exact arithmetic modulo m. */
    lemma MaskedSizeT(x: int, m: int)
      requires Shape() && (m == capacity || m == 2 * capacity)
      ensures Masked(SizeT(x), m) == Masked(x, m)
    {
      var k := SIZE_T_RANGE / (2 * capacity);
      assert SIZE_T_RANGE == k * (2 * capacity);
      if m == capacity {
        assert SIZE_T_RANGE == (2 * k) * capacity;
        ModOfMultiple(x, capacity, 2 * k);
      } else {
        ModOfMultiple(x, 2 * capacity, k);
      }
    }

    predicate Empty()
      reads this
      requires Valid()
      ensures Empty() <==> |Contents()| == 0
    {
      mBegin == mEnd
    }

    predicate Full()
      reads this
      requires Valid()
      ensures Full() <==> |Contents()| == capacity
    {
      Flipped(mBegin, capacity) == mEnd
    }

    function Size(): (n: nat)
      reads this
      requires Valid()
      ensures n == |Contents()|
    {
      var n := Gap(mBegin, mEnd, 2 * capacity);
      GapIsMasked(mBegin, mEnd, 2 * capacity);
      MaskedSizeT(mEnd - mBegin, capacity);
      ModOfMultiple(mEnd - mBegin, capacity, 2);
      if Full() then capacity else
        assert n < capacity;
        ModUnique(n, capacity, 0, n);
        Masked(SizeT(mEnd - mBegin), capacity)
    }

    /** The slot an unwrapped index falls in. */
    function WrappedAccess(index: int): (slot: nat)
      reads this
      requires Shape()
      ensures slot == Masked(index, capacity)
    {
      MaskedSizeT(index, capacity);
      Masked(SizeT(index), capacity)
    }

    function At(index: nat): (x: T)
      reads this, mData
      requires Valid() && index < |Contents()|
      ensures x == Contents()[index]
    {
      mData[WrappedAccess(mBegin + index)]
    }

    function ReverseAt(index: nat): (x: T)
      reads this, mData
      requires Valid() && 1 <= index <= |Contents()|
      ensures x == Contents()[|Contents()| - index]
    {
      SameSlot(mEnd - index, mBegin + (|Contents()| - index), capacity);
      mData[WrappedAccess(mEnd - index)]
    }

    function Front(): (x: T)
      reads this, mData
      requires Valid() && Contents() != []
      ensures x == Contents()[0]
    {
      At(0)
    }

    function Back(): (x: T)
      reads this, mData
      requires Valid() && Contents() != []
      ensures x == Contents()[|Contents()| - 1]
    {
      ReverseAt(1)
    }

    /** The index after adding amount, a size_t that may stand for a negative step. */
    function Add(beginOrEnd: nat, amount: nat): nat
      reads this
      requires Shape()
    {
      Masked(SizeT(beginOrEnd + amount), 2 * capacity)
    }

    function Incr(x: nat): (r: nat)
      reads this
      requires Shape() && x < 2 * capacity
      ensures r == Next(x, 2 * capacity)
    {
      MaskedSizeT(x + 1, 2 * capacity);
      ModUnique(x + 1, 2 * capacity, if x + 1 < 2 * capacity then 0 else 1, Next(x, 2 * capacity));
      Add(x, 1)
    }

    function Decr(x: nat): (r: nat)
      reads this
      requires Shape() && x < 2 * capacity
      ensures r == Previous(x, 2 * capacity)
    {
      assert SizeT(x + (SIZE_T_RANGE - 1)) == SizeT(x - 1);
      MaskedSizeT(x - 1, 2 * capacity);
      ModUnique(x - 1, 2 * capacity, if 0 < x then 0 else -1, Previous(x, 2 * capacity));
      Add(x, SIZE_T_RANGE - 1)
    }

    method PopFront()
      requires Valid() && Contents() != []
      modifies this`mBegin
      ensures Valid() && Contents() == old(Contents())[1..]
    {
      ViewWithoutFirst(mData[..], mBegin, |Contents()|);
      mBegin := Incr(mBegin);
    }

    method PopBack()
      requires Valid() && Contents() != []
      modifies this`mEnd
      ensures Valid() && Contents() == old(Contents())[..|old(Contents())| - 1]
    {
      mEnd := Decr(mEnd);
    }

    /** Append; a full ring gives up its first element. */
    method PushBack(elem: T)
      requires Valid()
      modifies this, mData
      ensures Valid()
      ensures Contents() == (if old(Full()) then old(Contents())[1..] else old(Contents())) + [elem]
    {
      if Full() {
        PopFront();
      }
      ghost var data, n := mData[..], |Contents()|;
      mEnd := Incr(mEnd);
      var back := WrappedAccess(mEnd - 1);
      SameSlot(mEnd - 1, mBegin + n, capacity);
      ViewWithLast(data, mBegin, n, elem);
      mData[back] := elem;
      assert mData[..] == data[back := elem];
    }

    /** Prepend; a full ring gives up its last element. */
    method PushFront(elem: T)
      requires Valid()
      modifies this, mData
      ensures Valid()
      ensures Contents()
           == [elem] + (if old(Full()) then old(Contents())[..capacity - 1] else old(Contents()))
    {
      if Full() {
        PopBack();
      }
      ghost var data, n := mData[..], |Contents()|;
      ViewWithFirst(data, mBegin, n, elem);
      mBegin := Decr(mBegin);
      var front := WrappedAccess(mBegin);
      mData[front] := elem;
      assert mData[..] == data[front := elem];
    }

    /** sfpClearHistory: pop until empty. */
    method Clear()
      requires Valid()
      modifies this`mBegin
      ensures Valid() && Contents() == []
    {
      while !Empty()
        invariant Valid()
        decreases |Contents()|
      {
        PopFront();
      }
    }
  }
}
