/** Index arithmetic shared by the rings: masking a monotonic index into a power-of-two
    buffer, and what a wrapped bulk copy leaves in the slots. */
module Slots {

  // ---------------------------------------------------------------- modulo

  lemma MulGap(k: int, c: int)
    requires c > 0
    ensures k >= 1 ==> k * c >= c
    ensures k <= -1 ==> k * c <= -c
  {
    if k >= 1 {
      assert (k - 1) * c >= 0;
    } else if k <= -1 {
      assert (-k - 1) * c >= 0;
    }
  }

  lemma ModUnique(x: int, q: int, r: int, c: int)
    requires c > 0 && 0 <= r < c && x == q * c + r
    ensures x % c == r && x / c == q
  {
    var k := q - x / c;
    assert k * c == q * c - (x / c) * c;
    assert x == (x / c) * c + x % c;
    MulGap(k, c);
    assert -c < k * c < c;
    assert k == 0;
  }

  lemma ModShift(x: int, k: int, c: int)
    requires c > 0
    ensures (x + k * c) % c == x % c
  {
    ModUnique(x + k * c, x / c + k, x % c, c);
  }

  /** Distances survive the wrap: the slot distance of two indices is their distance. */
  lemma SlotDistance(a: int, b: int, c: int)
    requires c > 0 && 0 <= b - a < c
    ensures (b % c - a) % c == b - a
    ensures (b % c - a % c) % c == b - a
  {
    ModUnique(b % c - a, -(b / c), b - a, c);
    ModUnique(b % c - a % c, a / c - b / c, b - a, c);
  }

  lemma DistinctSlots(a: int, b: int, c: int)
    requires c > 0 && 0 < b - a < c
    ensures a % c != b % c
  {
    SlotDistance(a, b, c);
  }

  lemma OffsetDistance(j: nat, at: nat, c: nat)
    requires j < c
    ensures (j - at) % c == if j >= at % c then j - at % c else j + c - at % c
  {
    var off := at % c;
    if j >= off {
      ModUnique(j - at, -(at / c), j - off, c);
    } else {
      ModUnique(j - at, -(at / c) - 1, j + c - off, c);
    }
  }

  lemma WrapOnce(at: nat, i: nat, c: nat)
    requires i < c
    ensures (at + i) % c == if at % c + i < c then at % c + i else at % c + i - c
  {
    if at % c + i < c {
      ModUnique(at + i, at / c, at % c + i, c);
    } else {
      ModUnique(at + i, at / c + 1, at % c + i - c, c);
    }
  }

  // ---------------------------------------------------------------- masking

  /** The slot of a monotonic index. */
  function Slot(index: nat, capacity: nat): (slot: nat)
    requires capacity > 0
    ensures slot < capacity
  {
    index % capacity
  }

  predicate IsPow2(n: nat) {
    n == 1 || (n >= 2 && n % 2 == 0 && IsPow2(n / 2))
  }

  /** Bitwise and of two naturals, bit by bit. */
  function And(a: nat, b: nat): nat
    decreases a + b
  {
    if a == 0 || b == 0 then 0 else 2 * And(a / 2, b / 2) + (if a % 2 == 1 && b % 2 == 1 then 1 else 0)
  }

  /** Masking with a power of two minus one is the remainder. */
  lemma MaskIsMod(a: nat, c: nat)
    requires IsPow2(c)
    ensures And(a, c - 1) == a % c
  {
    var q := MaskSplits(a, c);
    ModUnique(a, q, And(a, c - 1), c);
  }

  lemma {:induction false} MaskSplits(a: nat, c: nat) returns (q: nat)
    requires IsPow2(c)
    ensures a == q * c + And(a, c - 1) && And(a, c - 1) < c
    decreases c
  {
    if c == 1 {
      q := a;
    } else if a == 0 {
      q := 0;
    } else {
      var h := c / 2;
      q := MaskSplits(a / 2, h);
      AndOdd(a, h - 1);
      Doubled(q, h);
      assert c == 2 * h;
    }
  }

  lemma Doubled(q: nat, h: nat)
    ensures q * (2 * h) == 2 * (q * h)
  {
  }

  lemma AndOdd(a: nat, b: nat)
    requires a > 0
    ensures And(a, 2 * b + 1) == 2 * And(a / 2, b) + a % 2
  {
    assert (2 * b + 1) / 2 == b && (2 * b + 1) % 2 == 1;
  }

  // ---------------------------------------------------------------- buffers

  /** What a reader sees between two monotonic indices. */
  function Window<T>(buf: seq<T>, from: nat, to: nat): (s: seq<T>)
    requires |buf| > 0 && from <= to
    ensures |s| == to - from
  {
    seq(to - from, i requires 0 <= i < to - from => buf[(from + i) % |buf|])
  }

  /** The buffer after items are stored at consecutive indices from `at`. */
  function Put<T>(buf: seq<T>, at: nat, items: seq<T>): (s: seq<T>)
    requires |buf| > 0
    ensures |s| == |buf|
  {
    seq(|buf|, j requires 0 <= j < |buf| =>
      var d := (j - at) % |buf|;
      if d < |items| then items[d] else buf[j])
  }

  lemma WindowAfterPut<T>(buf: seq<T>, from: nat, at: nat, items: seq<T>)
    requires |buf| > 0 && from <= at
    requires at + |items| <= from + |buf|
    ensures Window(Put(buf, at, items), from, at + |items|) == Window(buf, from, at) + items
  {
    var c := |buf|;
    forall i | 0 <= i < at + |items| - from
      ensures Window(Put(buf, at, items), from, at + |items|)[i] == (Window(buf, from, at) + items)[i]
    {
      var slot := (from + i) % c;
      if from + i < at {
        SlotDistance(at, from + i + c, c);
        ModShift(from + i, 1, c);
      } else {
        SlotDistance(at, from + i, c);
      }
    }
  }

  lemma WindowSplit<T>(buf: seq<T>, from: nat, mid: nat, to: nat)
    requires |buf| > 0 && from <= mid <= to
    ensures Window(buf, from, to) == Window(buf, from, mid) + Window(buf, mid, to)
  {
    forall i | mid - from <= i < to - from
      ensures Window(buf, from, to)[i] == Window(buf, mid, to)[i - (mid - from)]
    {
      assert from + i == mid + (i - (mid - from));
    }
  }

  lemma WindowAt<T>(buf: seq<T>, at: nat, n: nat, i: nat, off: nat)
    requires i < n <= |buf| && off == at % |buf|
    ensures Window(buf, at, at + n)[i] == if off + i < |buf| then buf[off + i] else buf[off + i - |buf|]
  {
    WrapOnce(at, i, |buf|);
  }

  lemma TwoBlocks<T>(window: seq<T>, buf: seq<T>, off: nat)
    requires |window| <= |buf| && off < |buf|
    requires forall i | 0 <= i < |window| ::
               window[i] == if off + i < |buf| then buf[off + i] else buf[off + i - |buf|]
    ensures window == if |window| <= |buf| - off then buf[off..off + |window|]
                      else buf[off..] + buf[..|window| - (|buf| - off)]
  {
  }

  /** A window is one block of slots, or two when it passes the end of the buffer. */
  lemma WindowInTwo<T>(buf: seq<T>, at: nat, n: nat, off: nat)
    requires |buf| > 0 && n <= |buf| && off == at % |buf|
    ensures Window(buf, at, at + n) ==
      if n <= |buf| - off then buf[off..off + n] else buf[off..] + buf[..n - (|buf| - off)]
  {
    var window := Window(buf, at, at + n);
    forall i | 0 <= i < n
      ensures window[i] == if off + i < |buf| then buf[off + i] else buf[off + i - |buf|]
    {
      WindowAt(buf, at, n, i, off);
    }
    TwoBlocks(window, buf, off);
  }

  /** A buffer in which two blocks of slots were overwritten, the second from the start. */
  lemma PutInTwo<T>(buf: seq<T>, after: seq<T>, at: nat, items: seq<T>, off: nat)
    requires |buf| > 0 && |items| <= |buf| == |after| && off == at % |buf|
    requires forall j | 0 <= j < |buf| ::
               after[j] == if off <= j < off + |items| then items[j - off]
                           else if j < off + |items| - |buf| then items[j + |buf| - off] else buf[j]
    ensures after == Put(buf, at, items)
  {
    forall j | 0 <= j < |buf|
      ensures after[j] == Put(buf, at, items)[j]
    {
      OffsetDistance(j, at, |buf|);
    }
  }
}
