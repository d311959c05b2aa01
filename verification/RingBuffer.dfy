/** The bounded ring of windows/audio-service/include/smartmic/ring_buffer.h, used by one
    thread at a time: it refines a queue that forgets its oldest items.  What survives when
    the two ends run concurrently is the subject of module SpscRing. */
module RingBuffers {
  import opened Slots

  // ------------------------------------------------------- the queue it refines

  function Min(a: nat, b: nat): nat {
    if a < b then a else b
  }

  /** The newest `n` items. */
  function Newest<T>(s: seq<T>, n: nat): seq<T> {
    if |s| <= n then s else s[|s| - n..]
  }

  function Excess<T>(s: seq<T>, n: nat): nat {
    if |s| <= n then 0 else |s| - n
  }

  datatype Use<T> = Offer(items: seq<T>) | Take(count: nat)

  /** What a run of uses has done: items still queued, delivered in order, and lost. */
  datatype Ledger<T> = Ledger(queue: seq<T>, delivered: seq<T>, offered: nat, lost: nat)

  function Account<T>(l: Ledger<T>, u: Use<T>, capacity: nat): Ledger<T> {
    match u
    case Offer(items) =>
      Ledger(Newest(l.queue + items, capacity), l.delivered,
             l.offered + |items|, l.lost + Excess(l.queue + items, capacity))
    case Take(count) =>
      var n := Min(count, |l.queue|);
      Ledger(l.queue[n..], l.delivered + l.queue[..n], l.offered, l.lost)
  }

  function AccountAll<T>(uses: seq<Use<T>>, capacity: nat): Ledger<T> {
    if uses == [] then Ledger([], [], 0, 0)
    else Account(AccountAll(uses[..|uses| - 1], capacity), uses[|uses| - 1], capacity)
  }

  function Stream<T>(uses: seq<Use<T>>): seq<T> {
    if uses == [] then []
    else
      var last := uses[|uses| - 1];
      Stream(uses[..|uses| - 1]) + (if last.Offer? then last.items else [])
  }

  /** `picks` are strictly increasing positions in `stream` whose items are `s`. */
  ghost predicate PickedFrom<T>(s: seq<T>, stream: seq<T>, picks: seq<nat>) {
    && |picks| == |s|
    && (forall i | 0 <= i < |s| :: picks[i] < |stream| && stream[picks[i]] == s[i])
    && (forall i, j | 0 <= i < j < |picks| :: picks[i] < picks[j])
  }

  /** The queue is the tail of the stream, and the three counts add up to it. */
  ghost predicate Balanced<T>(l: Ledger<T>, stream: seq<T>, capacity: nat) {
    && l.offered == |stream| == |l.delivered| + l.lost + |l.queue|
    && |l.queue| <= capacity
    && l.queue == stream[|stream| - |l.queue|..]
  }

  /** Dropping `skipped` queued items and all but the last `capacity` new ones leaves the
      newest items of both together. */
  lemma NewestAfterSkip<T>(queue: seq<T>, src: seq<T>, items: seq<T>, skipped: nat, capacity: nat)
    requires items == src[|src| - Min(|src|, capacity)..]
    requires |queue| <= capacity && skipped == Excess(queue + items, capacity)
    ensures queue[skipped..] + items == Newest(queue + src, capacity)
    ensures skipped + |src| - |items| == Excess(queue + src, capacity)
  {
  }

  /** The slots after a write that moved the reader from `from` to `read`. */
  lemma WriteLeaves<T>(slots: seq<T>, from: nat, read: nat, write: nat, src: seq<T>, items: seq<T>)
    requires |slots| > 0 && from <= read && from <= write <= from + |slots|
    requires items == src[|src| - Min(|src|, |slots|)..]
    requires read - from == if write - from + |items| > |slots| then write - from + |items| - |slots| else 0
    ensures read <= write
    ensures Window(Put(slots, write, items), read, write + |items|) == Newest(Window(slots, from, write) + src, |slots|)
    ensures read - from + |src| - |items| == Excess(Window(slots, from, write) + src, |slots|)
  {
    WindowSplit(slots, from, read, write);
    WindowAfterPut(slots, read, write, items);
    NewestAfterSkip(Window(slots, from, write), src, items, read - from, |slots|);
  }

  lemma AccountBalances<T>(l: Ledger<T>, stream: seq<T>, u: Use<T>, capacity: nat)
    requires Balanced(l, stream, capacity)
    ensures Balanced(Account(l, u, capacity), stream + (if u.Offer? then u.items else []), capacity)
  {
    match u
    case Offer(items) =>
      assert l.queue + items == (stream + items)[|stream| - |l.queue|..];
    case Take(count) =>
      assert stream + [] == stream;
  }

  /** Nothing is invented, repeated or reordered, and every offered item is delivered,
      lost or still queued: the queue is the tail of the stream, deliveries come from
      strictly increasing earlier positions, and the three counts add up. */
  lemma {:induction false} NothingInvented<T>(uses: seq<Use<T>>, capacity: nat)
    returns (picks: seq<nat>)
    ensures Balanced(AccountAll(uses, capacity), Stream(uses), capacity)
    ensures PickedFrom(AccountAll(uses, capacity).delivered, Stream(uses), picks)
    ensures forall i | 0 <= i < |picks| ::
              picks[i] < |Stream(uses)| - |AccountAll(uses, capacity).queue|
  {
    if uses == [] {
      picks := [];
    } else {
      var front, last := uses[..|uses| - 1], uses[|uses| - 1];
      picks := NothingInvented(front, capacity);
      AccountBalances(AccountAll(front, capacity), Stream(front), last, capacity);
      if last.Take? {
        var l := AccountAll(front, capacity);
        assert Stream(uses) == Stream(front);
        picks := PicksAfterTake(l, Stream(front), picks, last.count, capacity);
      } else {
        PicksAfterOffer(AccountAll(front, capacity).delivered, Stream(front), picks, last.items);
      }
    }
  }

  lemma PicksAfterTake<T>(l: Ledger<T>, stream: seq<T>, picks: seq<nat>, count: nat, capacity: nat)
    returns (more: seq<nat>)
    requires Balanced(l, stream, capacity) && PickedFrom(l.delivered, stream, picks)
    requires forall i | 0 <= i < |picks| :: picks[i] < |stream| - |l.queue|
    ensures var l' := Account(l, Take(count), capacity);
      PickedFrom(l'.delivered, stream, more) && forall i | 0 <= i < |more| :: more[i] < |stream| - |l'.queue|
  {
    var start, n := |stream| - |l.queue|, Min(count, |l.queue|);
    PicksAppend(l.delivered, l.queue[..n], stream, picks, start);
    more := picks + seq(n, i requires 0 <= i < n => start + i);
  }

  lemma PicksAppend<T>(s: seq<T>, t: seq<T>, stream: seq<T>, picks: seq<nat>, start: nat)
    requires PickedFrom(s, stream, picks) && forall i | 0 <= i < |picks| :: picks[i] < start
    requires start + |t| <= |stream| && t == stream[start..start + |t|]
    ensures PickedFrom(s + t, stream, picks + seq(|t|, i requires 0 <= i < |t| => start + i))
  {
    assert forall i | 0 <= i < |t| :: t[i] == stream[start + i];
  }

  lemma PicksAfterOffer<T>(s: seq<T>, stream: seq<T>, picks: seq<nat>, items: seq<T>)
    requires PickedFrom(s, stream, picks)
    ensures PickedFrom(s, stream + items, picks)
  {
  }

  // ------------------------------------------------------------- the class

  class RingBuffer<T(0)> {
    const capacity: nat
    const mask: nat
    const data: array<T>
    var write: nat
    var read: nat
    var overruns: nat
    var underruns: nat

    ghost predicate Valid()
      reads this
    {
      && IsPow2(capacity) && mask == capacity - 1
      && data.Length == capacity
      && read <= write <= read + capacity
    }

    /** The queued items, oldest first. */
    ghost function Contents(): (s: seq<T>)
      requires Valid()
      reads this, data
      ensures |s| == write - read <= capacity
    {
      Pow2Positive(capacity);
      Window(data[..], read, write)
    }

    constructor (wanted: nat)
      ensures Valid() && fresh(data)
      ensures wanted <= capacity && (capacity == 1 || capacity < 2 * wanted)
      ensures Contents() == [] && overruns == 0 && underruns == 0
    {
      var c := RoundUpPow2(wanted);
      Pow2Positive(c);
      capacity := c;
      mask := c - 1;
      data := new T[c];
      write, read, overruns, underruns := 0, 0, 0, 0;
    }

    /** The smallest power of two that is at least `v`. */
    static method RoundUpPow2(v: nat) returns (p: nat)
      ensures IsPow2(p) && v <= p
      ensures p == 1 || p < 2 * v
    {
      p := 1;
      while p < v
        invariant IsPow2(p) && (p == 1 || p < 2 * v)
        decreases 2 * v - p
      {
        p := p * 2;
      }
    }

    method Available() returns (n: nat)
      requires Valid()
      ensures n == |Contents()|
    {
      n := write - read;
    }

    method Write(src: seq<T>) returns (dropped: nat)
      requires Valid()
      modifies this, data
      ensures Valid()
      ensures Contents() == Newest(old(Contents()) + src, capacity)
      ensures dropped == Excess(old(Contents()) + src, capacity)
      ensures overruns == old(overruns) + dropped && underruns == old(underruns)
      ensures write == old(write) + Min(|src|, capacity)
    {
      if |src| == 0 {
        return 0;
      }
      Pow2Positive(capacity);
      dropped := 0;
      var items := src;
      if |src| > capacity {
        dropped := |src| - capacity;
        items := src[dropped..];
      }
      var used := write - read;
      ghost var slots := data[..];
      if used + |items| > capacity {
        var overflow := used + |items| - capacity;
        read := read + overflow;
        dropped := dropped + overflow;
      }
      WriteLeaves(slots, old(read), read, write, src, items);
      CopyIn(write, items);
      write := write + |items|;
      overruns := overruns + dropped;
    }

    /** Reads up to `count` items; the shortfall is counted. */
    method Read(count: nat) returns (out: seq<T>)
      requires Valid()
      modifies this
      ensures Valid()
      ensures out == old(Contents())[..Min(count, |old(Contents())|)]
      ensures Contents() == old(Contents())[|out|..]
      ensures underruns == old(underruns) + count - |out| && overruns == old(overruns)
      ensures write == old(write)
    {
      Pow2Positive(capacity);
      var avail := write - read;
      var n := Min(avail, count);
      WindowSplit(data[..], read, read + n, write);
      out := CopyOut(read, n);
      read := read + n;
      underruns := underruns + (count - n);
    }

    /** Always `count` items: the real ones, then silence. */
    method ReadOrSilence(count: nat, silence: T) returns (out: seq<T>, got: nat)
      requires Valid()
      modifies this
      ensures Valid()
      ensures |out| == count && got == Min(count, |old(Contents())|)
      ensures out[..got] == old(Contents())[..got]
      ensures forall i | got <= i < count :: out[i] == silence
      ensures Contents() == old(Contents())[got..]
    {
      var items := Read(count);
      got := |items|;
      out := items + seq(count - got, _ => silence);
    }

    method Clear()
      requires Valid()
      modifies this
      ensures Valid() && Contents() == []
      ensures overruns == old(overruns) && underruns == old(underruns)
    {
      read := write;
    }

    /** The two-part copy into the slots from index `at`. */
    method CopyIn(at: nat, src: seq<T>)
      requires Valid() && |src| <= capacity
      modifies data
      ensures data[..] == Put(old(data[..]), at, src)
    {
      Pow2Positive(capacity);
      MaskIsMod(at, capacity);
      var off := And(at, mask);
      var first := Min(|src|, capacity - off);
      forall i | 0 <= i < first {
        data[off + i] := src[i];
      }
      if |src| > first {
        forall i | 0 <= i < |src| - first {
          data[i] := src[first + i];
        }
      }
      PutInTwo(old(data[..]), data[..], at, src, off);
    }

    /** The two-part copy out of the slots from index `at`. */
    method CopyOut(at: nat, count: nat) returns (dst: seq<T>)
      requires Valid() && count <= capacity
      ensures dst == Window(data[..], at, at + count)
    {
      Pow2Positive(capacity);
      MaskIsMod(at, capacity);
      var off := And(at, mask);
      var first := Min(count, capacity - off);
      dst := data[off..off + first];
      if count > first {
        dst := dst + data[..count - first];
      }
      WindowInTwo(data[..], at, count, off);
    }
  }

  lemma Pow2Positive(c: nat)
    requires IsPow2(c)
    ensures c >= 1
  {
  }

  lemma {:induction false} Pow2Apart(a: nat, b: nat)
    requires IsPow2(a) && IsPow2(b) && a < b
    ensures 2 * a <= b
  {
    if a > 1 {
      Pow2Apart(a / 2, b / 2);
    }
  }

  /** 256 is the capacity the constructor chooses when asked for 256. */
  lemma SmallestPow2(c: nat)
    requires IsPow2(c) && 256 <= c < 512
    ensures c == 256
  {
    assert IsPow2(2) && IsPow2(4) && IsPow2(8) && IsPow2(16);
    assert IsPow2(32) && IsPow2(64) && IsPow2(128) && IsPow2(256);
    if c != 256 {
      Pow2Apart(256, c);
    }
  }
}
