/** The ring of windows/audio-service/include/smartmic/ring_buffer.h with its two ends
    running concurrently.  A step is one load, one element copied or one store; a run is
    any interleaving of the producer's and the consumer's steps. */
module SpscRing {
  import opened Basics
  import opened Slots


  /** Where the producer is inside `write`. */
  datatype Producer<T> =
    | Quiet
    | LoadingWrite(items: seq<T>)
    | LoadingRead(items: seq<T>, w: nat)
    | Dropping(items: seq<T>, w: nat, newRead: nat)
    | CopyingIn(items: seq<T>, w: nat, done: nat)

  /** Where the consumer is inside `read`. */
  datatype Consumer<T> =
    | Resting
    | LoadingOwn(count: nat)
    | LoadingTheirs(count: nat, r: nat)
    | CopyingOut(r: nat, n: nat, got: seq<T>)

  /** The shared words and slots, both ends, and two histories: every item handed to
      `write` and every item returned by a finished `read`. */
  datatype Ring<T> = Ring(
    data: seq<T>, write: nat, read: nat,
    producer: Producer<T>, consumer: Consumer<T>,
    input: seq<T>, delivered: seq<T>)
  {
    function Capacity(): nat {
      |data|
    }
  }

  datatype Action<T> = StartWrite(items: seq<T>) | Produce | StartRead(count: nat) | Consume

  function Tail<T>(items: seq<T>, n: nat): seq<T> {
    if |items| > n then items[|items| - n..] else items
  }

  function ProduceStep<T>(s: Ring<T>): Ring<T>
    requires s.Capacity() > 0
  {
    match s.producer
    case Quiet => s
    case LoadingWrite(items) => s.(producer := LoadingRead(items, s.write))
    case LoadingRead(items, w) =>
      var used := (w - s.read) % U64;
      if used + |items| > s.Capacity()
      then s.(producer := Dropping(items, w, s.read + (used + |items| - s.Capacity())))
      else s.(producer := CopyingIn(items, w, 0))
    case Dropping(items, w, newRead) =>
      s.(read := newRead, producer := CopyingIn(items, w, 0))
    case CopyingIn(items, w, done) =>
      if done < |items|
      then s.(data := s.data[Slot(w + done, s.Capacity()) := items[done]],
              producer := CopyingIn(items, w, done + 1))
      else s.(write := w + |items|, producer := Quiet)
  }

  function ConsumeStep<T>(s: Ring<T>): Ring<T>
    requires s.Capacity() > 0
  {
    match s.consumer
    case Resting => s
    case LoadingOwn(count) => s.(consumer := LoadingTheirs(count, s.read))
    case LoadingTheirs(count, r) =>
      var avail := (s.write - r) % U64;
      s.(consumer := CopyingOut(r, if avail < count then avail else count, []))
    case CopyingOut(r, n, got) =>
      if |got| < n
      then s.(consumer := CopyingOut(r, n, got + [s.data[Slot(r + |got|, s.Capacity())]]))
      else s.(read := r + n, delivered := s.delivered + got, consumer := Resting)
  }

  /** One step of the schedule; starting a call that is already running does nothing. */
  function Step<T>(s: Ring<T>, a: Action<T>): Ring<T>
    requires s.Capacity() > 0
  {
    match a
    case StartWrite(items) =>
      if !s.producer.Quiet? || items == [] then s
      else s.(producer := LoadingWrite(Tail(items, s.Capacity())), input := s.input + items)
    case Produce => ProduceStep(s)
    case StartRead(count) =>
      if s.consumer.Resting? then s.(consumer := LoadingOwn(count)) else s
    case Consume => ConsumeStep(s)
  }

  function Run<T>(s: Ring<T>, schedule: seq<Action<T>>): (end: Ring<T>)
    requires s.Capacity() > 0
    ensures end.Capacity() == s.Capacity()
  {
    if schedule == [] then s
    else Step(Run(s, schedule[..|schedule| - 1]), schedule[|schedule| - 1])
  }

  function Empty<T>(slots: seq<T>): Ring<T> {
    Ring(slots, 0, 0, Quiet, Resting, [], [])
  }

  /** The producer is about to write no more than the free space it has just seen. */
  predicate Fits<T>(s: Ring<T>, a: Action<T>) {
    && (a.Produce? && s.producer.LoadingRead? ==>
          (s.producer.w - s.read) % U64 + |s.producer.items| <= s.Capacity())
    && (a.StartWrite? ==> |a.items| <= s.Capacity())
  }

  ghost predicate Disciplined<T>(s: Ring<T>, schedule: seq<Action<T>>)
    requires s.Capacity() > 0
  {
    forall i | 0 <= i < |schedule| :: Fits(Run(s, schedule[..i]), schedule[i])
  }

  // ------------------------------------------------------------- what is promised

  /** What the consumer has handed out, or is in the middle of copying, is a prefix of
      what the producer was given. */
  ghost predicate PrefixDelivered<T>(s: Ring<T>) {
    s.delivered + (if s.consumer.CopyingOut? then s.consumer.got else []) <= s.input
  }

  /** No slot lies both in the range being copied in and in the range being copied out. */
  ghost predicate NoTornSlot<T>(s: Ring<T>)
    requires s.Capacity() > 0
  {
    s.producer.CopyingIn? && s.consumer.CopyingOut? ==>
      forall p: nat, q: nat |
          && s.producer.w <= p < s.producer.w + |s.producer.items|
          && s.consumer.r <= q < s.consumer.r + s.consumer.n ::
        Slot(p, s.Capacity()) != Slot(q, s.Capacity())
  }

  // ------------------------------------------------------------- why it holds

  function Pending<T>(p: Producer<T>): seq<T> {
    if p.Quiet? then [] else p.items
  }

  function Copied<T>(p: Producer<T>): nat {
    if p.CopyingIn? then p.done else 0
  }

  /** Slot contents agree with the input on a range of indices. */
  ghost predicate Stored<T>(s: Ring<T>, from: nat, to: nat)
    requires s.Capacity() > 0
  {
    to <= |s.input| && forall k: nat | from <= k < to :: s.data[Slot(k, s.Capacity())] == s.input[k]
  }

  ghost predicate ProducerOk<T>(s: Ring<T>) {
    && !s.producer.Dropping?
    && |s.input| == s.write + |Pending(s.producer)|
    && s.input[s.write..] == Pending(s.producer)
    && (s.producer.LoadingRead? ==> s.producer.w == s.write)
    && (s.producer.CopyingIn? ==>
          && s.producer.w == s.write && s.producer.done <= |s.producer.items|
          && s.write + |s.producer.items| <= s.read + s.Capacity())
  }

  ghost predicate ConsumerOk<T>(s: Ring<T>) {
    && (s.consumer.LoadingTheirs? ==> s.consumer.r == s.read)
    && (s.consumer.CopyingOut? ==>
          && s.consumer.r == s.read && |s.consumer.got| <= s.consumer.n
          && s.read + s.consumer.n <= s.write <= |s.input|
          && s.consumer.got == s.input[s.read..s.read + |s.consumer.got|])
  }

  ghost predicate Inv<T>(s: Ring<T>) {
    && 0 < s.Capacity() < U64
    && s.read <= s.write <= s.read + s.Capacity()
    && s.write <= |s.input|
    && ProducerOk(s)
    && Stored(s, s.read, s.write + Copied(s.producer))
    && s.delivered == s.input[..s.read]
    && ConsumerOk(s)
  }

  lemma InvIsSafe<T>(s: Ring<T>)
    requires Inv(s)
    ensures PrefixDelivered(s) && NoTornSlot(s)
  {
    if s.consumer.CopyingOut? {
      JoinPrefix(s.input, s.read, s.read + |s.consumer.got|);
      if s.producer.CopyingIn? {
        forall p: nat, q: nat |
          && s.producer.w <= p < s.producer.w + |s.producer.items|
          && s.consumer.r <= q < s.consumer.r + s.consumer.n
          ensures Slot(p, s.Capacity()) != Slot(q, s.Capacity())
        {
          DistinctSlots(q, p, s.Capacity());
        }
      }
    }
  }

  lemma JoinPrefix<T>(s: seq<T>, mid: nat, to: nat)
    requires mid <= to <= |s|
    ensures s[..mid] + s[mid..to] == s[..to]
  {
  }

  lemma WrapFree(a: nat, b: nat)
    requires b <= a < b + U64
    ensures (a - b) % U64 == a - b
  {
  }

  /** The next item goes to a slot that no stored item occupies. */
  lemma StoredNext<T>(data: seq<T>, input: seq<T>, from: nat, to: nat)
    requires from <= to < from + |data| && to < |input|
    requires forall k: nat | from <= k < to :: data[Slot(k, |data|)] == input[k]
    ensures var next := data[Slot(to, |data|) := input[to]];
      forall k: nat | from <= k < to + 1 :: next[Slot(k, |next|)] == input[k]
  {
    forall k: nat | from <= k < to
      ensures Slot(k, |data|) != Slot(to, |data|)
    {
      DistinctSlots(k, to, |data|);
    }
  }

  lemma CopyInKeeps<T>(s: Ring<T>)
    requires Inv(s) && s.producer.CopyingIn? && s.producer.done < |s.producer.items|
    ensures Inv(ProduceStep(s))
  {
    var at := s.write + s.producer.done;
    assert s.input[at] == s.producer.items[s.producer.done];
    StoredNext(s.data, s.input, s.read, at);
  }

  lemma ProduceKeeps<T>(s: Ring<T>)
    requires Inv(s) && Fits(s, Produce)
    ensures Inv(ProduceStep(s))
  {
    match s.producer
    case Quiet =>
    case LoadingWrite(items) =>
    case LoadingRead(items, w) => WrapFree(s.write, s.read);
    case Dropping(_, _, _) =>
    case CopyingIn(items, w, done) =>
      if done < |items| {
        CopyInKeeps(s);
      } else {
        assert ProduceStep(s).input[..s.write + |items|] == s.input;
      }
  }

  lemma CopyOutKeeps<T>(s: Ring<T>)
    requires Inv(s) && s.consumer.CopyingOut?
    ensures ConsumerOk(ConsumeStep(s))
    ensures ConsumeStep(s).delivered == s.input[..ConsumeStep(s).read]
  {
    var CopyingOut(r, n, got) := s.consumer;
    if |got| < n {
      assert s.data[Slot(r + |got|, s.Capacity())] == s.input[r + |got|];
      assert s.input[r..r + |got| + 1] == s.input[r..r + |got|] + [s.input[r + |got|]];
    } else {
      JoinPrefix(s.input, r, r + n);
    }
  }

  lemma ConsumeKeeps<T>(s: Ring<T>)
    requires Inv(s)
    ensures Inv(ConsumeStep(s))
  {
    if s.consumer.LoadingTheirs? {
      WrapFree(s.write, s.read);
    } else if s.consumer.CopyingOut? {
      CopyOutKeeps(s);
    }
  }

  lemma StepKeeps<T>(s: Ring<T>, a: Action<T>)
    requires Inv(s) && Fits(s, a)
    ensures Inv(Step(s, a))
  {
    match a
    case StartWrite(items) =>
      if s.producer.Quiet? && items != [] {
        assert s.input[..s.write] == s.input;
        assert (s.input + items)[..s.write] == s.input;
        StartKeepsHistories(s, items);
      }
    case Produce => ProduceKeeps(s);
    case StartRead(_) =>
    case Consume => ConsumeKeeps(s);
  }

  /** Appending to the input leaves its older ranges alone. */
  lemma StartKeepsHistories<T>(s: Ring<T>, items: seq<T>)
    requires s.read <= |s.input|
    ensures (s.input + items)[..s.read] == s.input[..s.read]
    ensures forall a, b | 0 <= a <= b <= |s.input| :: (s.input + items)[a..b] == s.input[a..b]
  {
  }

  /** In every interleaving in which the producer writes no more than the free space it
      saw, deliveries are a prefix of the input and no slot is copied in and out at once. */
  lemma {:induction false} EveryInterleavingIsSafe<T>(slots: seq<T>, schedule: seq<Action<T>>)
    requires 0 < |slots| < U64
    requires Disciplined(Empty(slots), schedule)
    ensures Inv(Run(Empty(slots), schedule))
    ensures PrefixDelivered(Run(Empty(slots), schedule))
    ensures NoTornSlot(Run(Empty(slots), schedule))
  {
    if schedule != [] {
      var front := schedule[..|schedule| - 1];
      forall i | 0 <= i < |front|
        ensures Fits(Run(Empty(slots), front[..i]), front[i])
      {
        assert front[..i] == schedule[..i];
      }
      EveryInterleavingIsSafe(slots, front);
      StepKeeps(Run(Empty(slots), front), schedule[|schedule| - 1]);
    }
    InvIsSafe(Run(Empty(slots), schedule));
  }

  // ------------------------------------------------------------- where it stops

  lemma RunAppend<T>(s: Ring<T>, front: seq<Action<T>>, a: Action<T>)
    requires s.Capacity() > 0
    ensures Run(s, front + [a]) == Step(Run(s, front), a)
  {
    assert (front + [a])[..|front|] == front;
  }

  /** Copying a whole write into an idle ring, slot by slot. */
  lemma {:induction false} FillFromEmpty<T>(slots: seq<T>, a: T, n: nat) returns (schedule: seq<Action<T>>)
    requires |slots| > 0 && n <= |slots| < U64
    ensures Run(Empty(slots), schedule) ==
      Ring(Repeat(a, n) + slots[n..], 0, 0, CopyingIn(Repeat(a, |slots|), 0, n), Resting, Repeat(a, |slots|), [])
  {
    if n == 0 {
      schedule := BeginFill(slots, a);
    } else {
      schedule := FillFromEmpty(slots, a, n - 1);
      RunAppend(Empty(slots), schedule, Produce);
      schedule := schedule + [Produce];
      ModUnique(n - 1, 0, n - 1, |slots|);
      assert (Repeat(a, n - 1) + slots[n - 1..])[n - 1 := a] == Repeat(a, n) + slots[n..];
    }
  }

  lemma BeginFill<T>(slots: seq<T>, a: T) returns (schedule: seq<Action<T>>)
    requires 0 < |slots| < U64
    ensures Run(Empty(slots), schedule) ==
      Ring(Repeat(a, 0) + slots[0..], 0, 0, CopyingIn(Repeat(a, |slots|), 0, 0), Resting, Repeat(a, |slots|), [])
  {
    var items := Repeat(a, |slots|);
    var start: seq<Action<T>> := [StartWrite(items)];
    RunAppend(Empty(slots), [], StartWrite(items));
    assert [] + start == start && [] + items == items;
    RunAppend(Empty(slots), start, Produce);
    RunAppend(Empty(slots), start + [Produce], Produce);
    schedule := start + [Produce] + [Produce];
    assert Repeat(a, 0) + slots[0..] == slots;
  }

  function Repeat<T>(a: T, n: nat): (s: seq<T>)
    ensures |s| == n
    ensures forall i | 0 <= i < n :: s[i] == a
  {
    seq(n, _ => a)
  }

  /** A full ring whose consumer has loaded both indices and copied nothing yet. */
  lemma FullAndLoaded<T>(slots: seq<T>, a: T) returns (schedule: seq<Action<T>>)
    requires 0 < |slots| < U64
    ensures var n, items := |slots|, Repeat(a, |slots|);
      Run(Empty(slots), schedule) == Ring(items, n, 0, Quiet, CopyingOut(0, n, []), items, [])
  {
    var s, n := Empty(slots), |slots|;
    schedule := FillFromEmpty(slots, a, n);
    assert Repeat(a, n) + slots[n..] == Repeat(a, n);
    RunAppend(s, schedule, Produce);
    schedule := schedule + [Produce];
    RunAppend(s, schedule, StartRead(n));
    schedule := schedule + [StartRead(n)];
    RunAppend(s, schedule, Consume);
    schedule := schedule + [Consume];
    RunAppend(s, schedule, Consume);
    schedule := schedule + [Consume];
  }

  /** Writing one item through the drop-oldest branch while the consumer is copying. */
  lemma ReachDrop<T>(s: Ring<T>, schedule: seq<Action<T>>, b: T)
    requires 0 < s.Capacity() < U64
    requires var now := Run(s, schedule);
      && now.write == s.Capacity() && now.read == 0 && now.producer.Quiet?
    ensures var now := Run(s, schedule);
      var after := Run(s, schedule + [StartWrite([b])] + [Produce]);
      && after == now.(producer := LoadingRead([b], s.Capacity()), input := now.input + [b])
      && !Fits(after, Produce)
  {
    RunAppend(s, schedule, StartWrite([b]));
    RunAppend(s, schedule + [StartWrite([b])], Produce);
  }
}
