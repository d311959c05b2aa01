/** The drop-oldest branch of windows/audio-service/include/smartmic/ring_buffer.h when both
    ends run concurrently: exactly which of its steps are safe.  A drop stores the reader's
    index from the writer, so it must not overtake an item the reader is about to copy, nor
    take back items an idle reader has consumed. */
module SpscDrops {
  import opened Basics
  import opened Slots
  import opened SpscRing
  import opened RingBuffers

  /** The next item the consumer will copy is not dropped, and an idle consumer's index does
      not move back. */
  predicate SafeDrop<T>(s: Ring<T>, a: Action<T>) {
    a.Produce? && s.producer.Dropping? ==>
      match s.consumer
      case Resting => s.read <= s.producer.newRead
      case LoadingOwn(_) => s.read <= s.producer.newRead
      case LoadingTheirs(_, r) => s.producer.newRead <= r
      case CopyingOut(r, _, got) => s.producer.newRead <= r + |got|
  }

  ghost predicate Guarded<T>(s: Ring<T>, schedule: seq<Action<T>>)
    requires s.Capacity() > 0
  {
    forall i | 0 <= i < |schedule| :: SafeDrop(Run(s, schedule[..i]), schedule[i])
  }

  /** The items that were given an index: a write longer than the ring keeps its tail. */
  ghost function Kept<T>(s: Ring<T>, schedule: seq<Action<T>>): seq<T>
    requires s.Capacity() > 0
  {
    if schedule == [] then []
    else
      var front, last := schedule[..|schedule| - 1], schedule[|schedule| - 1];
      Kept(s, front) + Taken(Run(s, front), last)
  }

  function Taken<T>(s: Ring<T>, a: Action<T>): seq<T> {
    if a.StartWrite? && s.producer.Quiet? then Tail(a.items, s.Capacity()) else []
  }

  // ---------------------------------------------------------------- the invariant

  /** Below this index nothing may be read any more. */
  function Floor<T>(s: Ring<T>): int {
    if s.producer.CopyingIn? then s.write + |s.producer.items| - s.Capacity() else s.write - s.Capacity()
  }

  /** The slots hold the newest `|data|` of the first `top` items. */
  ghost predicate Holding<T>(data: seq<T>, kept: seq<T>, top: nat)
    requires |data| > 0
  {
    top <= |kept| && forall k: nat | top - |data| <= k < top :: data[Slot(k, |data|)] == kept[k]
  }

  ghost predicate WriterOk<T>(s: Ring<T>, kept: seq<T>)
    requires s.Capacity() > 0
  {
    && |Pending(s.producer)| <= s.Capacity()
    && |kept| == s.write + |Pending(s.producer)| && kept[s.write..] == Pending(s.producer)
    && (s.producer.LoadingRead? ==> s.producer.w == s.write)
    && (s.producer.Dropping? ==>
          && s.producer.w == s.write
          && s.producer.newRead == s.write + |s.producer.items| - s.Capacity()
          && s.producer.items != [])
    && (s.producer.CopyingIn? ==> s.producer.w == s.write && s.producer.done <= |s.producer.items|)
    && Holding(s.data, kept, s.write + Copied(s.producer))
  }

  ghost predicate ReaderOk<T>(s: Ring<T>, kept: seq<T>) {
    && Floor(s) <= s.read <= s.write <= |kept|
    && (s.consumer.LoadingTheirs? ==> s.read <= s.consumer.r <= s.write)
    && (s.consumer.CopyingOut? ==> CopiedOk(s, kept, s.consumer.r, s.consumer.n, s.consumer.got))
  }

  /** The reader may have been overtaken inside what it has already copied, not beyond. */
  ghost predicate CopiedOk<T>(s: Ring<T>, kept: seq<T>, r: nat, n: nat, got: seq<T>) {
    |got| <= n && r + n <= s.write <= |kept| && s.read <= r + |got| && got == kept[r..r + |got|]
  }

  /** Everything delivered lies below this index. */
  function Base<T>(s: Ring<T>): nat {
    if s.consumer.LoadingTheirs? || s.consumer.CopyingOut? then s.consumer.r else s.read
  }

  /** Deliveries so far, at strictly increasing indices; and an index that no drop has set
      was set by a read, whose last item was the one before it. */
  ghost predicate History<T>(s: Ring<T>, kept: seq<T>) {
    && (exists picks: seq<nat> :: PickedBelow(s.delivered, kept, picks, Base(s)))
    && (Base(s) > 0 && Base(s) > Floor(s) ==> LastIs(s.delivered, kept, Base(s)))
  }

  ghost predicate PickedBelow<T>(delivered: seq<T>, kept: seq<T>, picks: seq<nat>, below: nat) {
    PickedFrom(delivered, kept, picks) && forall i | 0 <= i < |picks| :: picks[i] < below
  }

  predicate LastIs<T(==)>(delivered: seq<T>, kept: seq<T>, base: nat) {
    |delivered| > 0 && 0 < base <= |kept| && delivered[|delivered| - 1] == kept[base - 1]
  }

  ghost predicate DropInv<T>(s: Ring<T>, kept: seq<T>) {
    0 < s.Capacity() < U64 && WriterOk(s, kept) && ReaderOk(s, kept) && History(s, kept)
  }

  // ---------------------------------------------------------------- every step keeps it

  lemma HoldingNext<T>(data: seq<T>, kept: seq<T>, top: nat)
    requires |data| > 0 && Holding(data, kept, top) && top < |kept|
    ensures Holding(data[Slot(top, |data|) := kept[top]], kept, top + 1)
  {
    forall k: nat | top + 1 - |data| <= k < top
      ensures Slot(k, |data|) != Slot(top, |data|)
    {
      DistinctSlots(k, top, |data|);
    }
  }

  lemma HoldingLonger<T>(data: seq<T>, kept: seq<T>, top: nat, more: seq<T>)
    requires |data| > 0 && Holding(data, kept, top)
    ensures Holding(data, kept + more, top)
  {
  }

  lemma HistoryLonger<T>(s: Ring<T>, kept: seq<T>, more: seq<T>)
    requires History(s, kept)
    ensures History(s, kept + more)
  {
    var picks: seq<nat> :| PickedBelow(s.delivered, kept, picks, Base(s));
    assert PickedBelow(s.delivered, kept + more, picks, Base(s));
  }

  /** The same deliveries under a floor that has not sunk, with the base where it was or
      put at the floor. */
  lemma HistoryRises<T>(s: Ring<T>, t: Ring<T>, kept: seq<T>)
    requires History(s, kept) && t.delivered == s.delivered && Floor(s) <= Floor(t)
    requires Base(t) == Base(s) || Base(s) <= Base(t) <= Floor(t)
    ensures History(t, kept)
  {
    var picks: seq<nat> :| PickedBelow(s.delivered, kept, picks, Base(s));
    assert PickedBelow(t.delivered, kept, picks, Base(t));
  }

  /** A producer step that moves no index of the reader. */
  lemma ReaderSame<T>(s: Ring<T>, t: Ring<T>, kept: seq<T>)
    requires ReaderOk(s, kept) && t.consumer == s.consumer && t.read == s.read
    requires s.write <= t.write <= |kept| && Floor(t) <= s.read
    ensures ReaderOk(t, kept)
  {
  }

  lemma StartKeeps<T>(s: Ring<T>, kept: seq<T>, items: seq<T>)
    requires DropInv(s, kept) && s.producer.Quiet? && items != []
    ensures DropInv(Step(s, StartWrite(items)), kept + Tail(items, s.Capacity()))
  {
    var more, t := Tail(items, s.Capacity()), Step(s, StartWrite(items));
    HoldingLonger(s.data, kept, s.write, more);
    assert (kept + more)[s.write..] == more;
    HistoryRises(s, t, kept);
    HistoryLonger(t, kept, more);
    ReaderLonger(s, kept, more);
    ReaderSame(s, t, kept + more);
  }

  lemma ReaderLonger<T>(s: Ring<T>, kept: seq<T>, more: seq<T>)
    requires ReaderOk(s, kept)
    ensures ReaderOk(s, kept + more)
  {
    if s.consumer.CopyingOut? {
      var CopyingOut(r, n, got) := s.consumer;
      assert (kept + more)[r..r + |got|] == kept[r..r + |got|];
    }
  }

  lemma LoadReadKeeps<T>(s: Ring<T>, kept: seq<T>)
    requires DropInv(s, kept) && s.producer.LoadingRead?
    ensures DropInv(ProduceStep(s), kept)
  {
    WrapFree(s.write, s.read);
    ReaderSame(s, ProduceStep(s), kept);
    HistoryRises(s, ProduceStep(s), kept);
  }

  lemma DropKeeps<T>(s: Ring<T>, kept: seq<T>)
    requires DropInv(s, kept) && s.producer.Dropping? && SafeDrop(s, Produce)
    ensures DropInv(ProduceStep(s), kept)
  {
    HistoryRises(s, ProduceStep(s), kept);
  }

  lemma CopyInKeepsDrops<T>(s: Ring<T>, kept: seq<T>)
    requires DropInv(s, kept) && s.producer.CopyingIn?
    ensures DropInv(ProduceStep(s), kept)
  {
    WriterCopies(s, kept);
    ReaderSame(s, ProduceStep(s), kept);
    HistoryRises(s, ProduceStep(s), kept);
  }

  lemma WriterCopies<T>(s: Ring<T>, kept: seq<T>)
    requires s.Capacity() > 0 && WriterOk(s, kept) && s.producer.CopyingIn?
    ensures WriterOk(ProduceStep(s), kept)
  {
    var CopyingIn(items, w, done) := s.producer;
    if done < |items| {
      HoldingNext(s.data, kept, w + done);
      assert kept[w..][done] == kept[w + done];
    } else {
      assert kept[w + |items|..] == [];
    }
  }

  lemma CopyOutKeepsDrops<T>(s: Ring<T>, kept: seq<T>)
    requires DropInv(s, kept) && s.consumer.CopyingOut?
    ensures DropInv(ConsumeStep(s), kept)
  {
    var CopyingOut(r, n, got) := s.consumer;
    ReaderCopies(s, kept, r, n, got);
    if |got| < n {
      HistoryRises(s, ConsumeStep(s), kept);
    } else {
      DeliveryKeeps(s, kept, r, n, got);
    }
  }

  lemma ReaderCopies<T>(s: Ring<T>, kept: seq<T>, r: nat, n: nat, got: seq<T>)
    requires s.Capacity() > 0 && WriterOk(s, kept) && ReaderOk(s, kept) && s.consumer == CopyingOut(r, n, got)
    ensures WriterOk(ConsumeStep(s), kept) && ReaderOk(ConsumeStep(s), kept)
  {
    if |got| < n {
      CopiesOne(s, kept, r, n, got);
    }
  }

  lemma CopiesOne<T>(s: Ring<T>, kept: seq<T>, r: nat, n: nat, got: seq<T>)
    requires s.Capacity() > 0 && CopiedOk(s, kept, r, n, got) && |got| < n && Floor(s) <= s.read
    requires WriterOk(s, kept)
    ensures CopiedOk(s, kept, r, n, got + [s.data[Slot(r + |got|, s.Capacity())]])
  {
    var q := r + |got|;
    assert s.data[Slot(q, s.Capacity())] == kept[q];
    assert kept[r..q + 1] == kept[r..q] + [kept[q]];
  }

  lemma DeliveryKeeps<T>(s: Ring<T>, kept: seq<T>, r: nat, n: nat, got: seq<T>)
    requires History(s, kept) && s.consumer == CopyingOut(r, n, got) && |got| == n && r + n <= |kept|
    requires got == kept[r..r + n]
    ensures History(s.(read := r + n, delivered := s.delivered + got, consumer := Resting), kept)
  {
    if n == 0 {
      assert s.delivered + got == s.delivered;
      HistoryRises(s, s.(read := r + n, delivered := s.delivered + got, consumer := Resting), kept);
    } else {
      var picks: seq<nat> :| PickedBelow(s.delivered, kept, picks, Base(s));
      PicksAppend(s.delivered, got, kept, picks, r);
      var more := picks + seq(n, i requires 0 <= i < n => r + i);
      var t := s.(read := r + n, delivered := s.delivered + got, consumer := Resting);
      assert PickedBelow(t.delivered, kept, more, Base(t));
      assert (s.delivered + got)[|s.delivered + got| - 1] == got[n - 1] == kept[r + n - 1];
    }
  }

  lemma ConsumeKeepsDrops<T>(s: Ring<T>, kept: seq<T>)
    requires DropInv(s, kept)
    ensures DropInv(ConsumeStep(s), kept)
  {
    match s.consumer
    case Resting =>
    case LoadingOwn(_) => HistoryRises(s, ConsumeStep(s), kept);
    case LoadingTheirs(_, r) =>
      WrapFree(s.write, r);
      HistoryRises(s, ConsumeStep(s), kept);
    case CopyingOut(_, _, _) => CopyOutKeepsDrops(s, kept);
  }

  lemma ProduceKeepsDrops<T>(s: Ring<T>, kept: seq<T>)
    requires DropInv(s, kept) && SafeDrop(s, Produce)
    ensures DropInv(ProduceStep(s), kept)
  {
    match s.producer
    case Quiet =>
    case LoadingWrite(_) =>
      ReaderSame(s, ProduceStep(s), kept);
      HistoryRises(s, ProduceStep(s), kept);
    case LoadingRead(_, _) => LoadReadKeeps(s, kept);
    case Dropping(_, _, _) => DropKeeps(s, kept);
    case CopyingIn(_, _, _) => CopyInKeepsDrops(s, kept);
  }

  lemma StepKeepsDrops<T>(s: Ring<T>, kept: seq<T>, a: Action<T>)
    requires DropInv(s, kept) && SafeDrop(s, a)
    ensures DropInv(Step(s, a), kept + Taken(s, a))
  {
    if !a.StartWrite? || !s.producer.Quiet? || a.items == [] {
      assert Taken(s, a) == [];
      assert kept + [] == kept;
    }
    match a
    case StartWrite(items) =>
      if s.producer.Quiet? && items != [] {
        StartKeeps(s, kept, items);
      }
    case Produce => ProduceKeepsDrops(s, kept);
    case StartRead(_) => HistoryRises(s, Step(s, a), kept);
    case Consume => ConsumeKeepsDrops(s, kept);
  }

  lemma {:induction false} GuardedKeeps<T>(slots: seq<T>, schedule: seq<Action<T>>)
    requires 0 < |slots| < U64 && Guarded(Empty(slots), schedule)
    ensures DropInv(Run(Empty(slots), schedule), Kept(Empty(slots), schedule))
  {
    var s := Empty(slots);
    if schedule == [] {
      NothingYet(slots);
    } else {
      var front := schedule[..|schedule| - 1];
      forall i | 0 <= i < |front|
        ensures SafeDrop(Run(s, front[..i]), front[i])
      {
        assert front[..i] == schedule[..i];
      }
      GuardedKeeps(slots, front);
      assert schedule[..|front|] == front;
      StepKeepsDrops(Run(s, front), Kept(s, front), schedule[|schedule| - 1]);
    }
  }

  lemma NothingYet<T>(slots: seq<T>)
    requires 0 < |slots| < U64
    ensures DropInv(Empty(slots), [])
  {
    var none: seq<nat> := [];
    assert PickedBelow(Empty(slots).delivered, [], none, Base(Empty(slots)));
  }

  // ---------------------------------------------------------------- the promise

  /** What was kept is picked from the input in order. */
  lemma {:induction false} KeptFromInput<T>(s: Ring<T>, schedule: seq<Action<T>>) returns (picks: seq<nat>)
    requires s.Capacity() > 0 && s.input == []
    ensures PickedFrom(Kept(s, schedule), Run(s, schedule).input, picks)
  {
    if schedule == [] {
      picks := [];
    } else {
      var front := schedule[..|schedule| - 1];
      picks := KeptFromInput(s, front);
      picks := KeptStep(Run(s, front), Kept(s, front), schedule[|schedule| - 1], picks);
    }
  }

  lemma KeptStep<T>(s: Ring<T>, kept: seq<T>, a: Action<T>, picks: seq<nat>) returns (more: seq<nat>)
    requires s.Capacity() > 0 && PickedFrom(kept, s.input, picks)
    ensures PickedFrom(kept + Taken(s, a), Step(s, a).input, more)
  {
    if a.StartWrite? && s.producer.Quiet? && a.items != [] {
      more := KeptOffer(kept, s.input, a.items, s.Capacity(), picks);
    } else {
      assert Taken(s, a) == [];
      assert kept + [] == kept;
      more := picks;
    }
  }

  lemma KeptOffer<T>(kept: seq<T>, input: seq<T>, items: seq<T>, n: nat, picks: seq<nat>) returns (more: seq<nat>)
    requires PickedFrom(kept, input, picks)
    ensures PickedFrom(kept + Tail(items, n), input + items, more)
  {
    var tail := Tail(items, n);
    var start := |input| + |items| - |tail|;
    PicksAfterOffer(kept, input, picks, items);
    assert tail == (input + items)[start..start + |tail|];
    PicksAppend(kept, tail, input + items, picks, start);
    more := picks + seq(|tail|, i requires 0 <= i < |tail| => start + i);
  }

  lemma PicksCompose<T>(a: seq<T>, b: seq<T>, c: seq<T>, p: seq<nat>, q: seq<nat>) returns (picks: seq<nat>)
    requires PickedFrom(a, b, p) && PickedFrom(b, c, q)
    ensures PickedFrom(a, c, picks)
  {
    picks := seq(|p|, i requires 0 <= i < |p| => q[p[i]]);
  }

  /** In every interleaving whose drops are safe, however many there are, what is delivered
      is picked from the input at strictly increasing positions: nothing is repeated,
      reordered or torn. */
  lemma SafeDropsDeliverInOrder<T>(slots: seq<T>, schedule: seq<Action<T>>) returns (picks: seq<nat>)
    requires 0 < |slots| < U64 && Guarded(Empty(slots), schedule)
    ensures var end := Run(Empty(slots), schedule);
      PickedFrom(end.delivered, end.input, picks)
  {
    GuardedKeeps(slots, schedule);
    var s, kept := Run(Empty(slots), schedule), Kept(Empty(slots), schedule);
    var inner: seq<nat> :| PickedBelow(s.delivered, kept, inner, Base(s));
    var outer := KeptFromInput(Empty(slots), schedule);
    picks := PicksCompose(s.delivered, kept, s.input, inner, outer);
  }

  // ---------------------------------------------------------------- the other half

  lemma {:induction false} RunConcat<T>(s: Ring<T>, front: seq<Action<T>>, rest: seq<Action<T>>)
    requires s.Capacity() > 0
    ensures Run(s, front + rest) == Run(Run(s, front), rest)
  {
    if rest == [] {
      assert front + rest == front;
    } else {
      var shorter, last := rest[..|rest| - 1], rest[|rest| - 1];
      RunConcat(s, front, shorter);
      RunAppend(s, front + shorter, last);
      RunAppend(Run(s, front), shorter, last);
      assert front + rest == front + shorter + [last];
      assert rest == shorter + [last];
    }
  }

  lemma RunOne<T>(s: Ring<T>, a: Action<T>)
    requires s.Capacity() > 0
    ensures Run(s, [a]) == Step(s, a)
  {
    assert [a][..0] == [];
    assert Run(s, []) == s;
  }

  /** One step, then the rest. */
  lemma RunCons<T>(s: Ring<T>, a: Action<T>, rest: seq<Action<T>>)
    requires s.Capacity() > 0
    ensures Run(s, [a] + rest) == Run(Step(s, a), rest)
  {
    RunOne(s, a);
    RunConcat(s, [a], rest);
  }

  /** Left alone, a copying producer publishes everything that was kept. */
  lemma {:induction false} Publishes<T>(s: Ring<T>, kept: seq<T>)
      returns (rest: seq<Action<T>>, data: seq<T>)
    requires s.Capacity() > 0 && WriterOk(s, kept) && s.producer.CopyingIn?
    ensures |data| == s.Capacity() && Holding(data, kept, |kept|)
    ensures Run(s, rest) == s.(data := data, write := |kept|, producer := Quiet)
    decreases |s.producer.items| - s.producer.done
  {
    WriterCopies(s, kept);
    if s.producer.done < |s.producer.items| {
      rest, data := Publishes(ProduceStep(s), kept);
      RunCons(s, Produce, rest);
      rest := [Produce] + rest;
    } else {
      RunOne(s, Produce);
      rest, data := [Produce], s.data;
    }
  }

  /** The next index the consumer will look at, and what it holds of the current read. */
  function Cursor<T>(s: Ring<T>): nat {
    match s.consumer
    case LoadingTheirs(_, r) => r
    case CopyingOut(r, _, got) => r + |got|
    case _ => s.read
  }

  function Got<T>(s: Ring<T>): seq<T> {
    if s.consumer.CopyingOut? then s.consumer.got else []
  }

  /** What a consumer may rely on: it never looks beyond what is published. */
  predicate Readable<T>(s: Ring<T>) {
    && Cursor(s) <= s.write < Cursor(s) + U64
    && (s.consumer.CopyingOut? ==> |s.consumer.got| <= s.consumer.n && s.consumer.r + s.consumer.n <= s.write)
  }

  /** The consumer has finished at `to`, having added the slots from its cursor on. */
  function Finished<T>(s: Ring<T>, to: nat): Ring<T>
    requires s.Capacity() > 0 && Cursor(s) <= to
  {
    s.(read := to, consumer := Resting, delivered := s.delivered + Got(s) + Window(s.data, Cursor(s), to))
  }

  /** Left alone, a copying consumer finishes its read. */
  lemma {:induction false} CopiesOut<T>(s: Ring<T>) returns (rest: seq<Action<T>>)
    requires s.Capacity() > 0 && s.consumer.CopyingOut? && |s.consumer.got| <= s.consumer.n
    ensures Run(s, rest) == Finished(s, s.consumer.r + s.consumer.n)
    decreases s.consumer.n - |s.consumer.got|
  {
    var CopyingOut(r, n, got) := s.consumer;
    if |got| < n {
      rest := CopiesOut(ConsumeStep(s));
      RunCons(s, Consume, rest);
      rest := [Consume] + rest;
      OneSlotLater(s);
    } else {
      RunOne(s, Consume);
      rest := [Consume];
      assert s.delivered + got + Window(s.data, r + n, r + n) == s.delivered + got;
    }
  }

  lemma FirstOfWindow<T>(data: seq<T>, from: nat, to: nat)
    requires |data| > 0 && from < to
    ensures Window(data, from, to) == [data[Slot(from, |data|)]] + Window(data, from + 1, to)
  {
    WindowSplit(data, from, from + 1, to);
    assert Window(data, from, from + 1) == [data[Slot(from, |data|)]];
  }

  lemma OneSlotLater<T>(s: Ring<T>)
    requires s.Capacity() > 0 && s.consumer.CopyingOut? && |s.consumer.got| < s.consumer.n
    ensures Finished(ConsumeStep(s), s.consumer.r + s.consumer.n) == Finished(s, s.consumer.r + s.consumer.n)
  {
    var CopyingOut(r, n, got) := s.consumer;
    var from, one := r + |got|, [s.data[Slot(r + |got|, s.Capacity())]];
    FirstOfWindow(s.data, from, r + n);
    SeqsRegroup(s.delivered, got, one, Window(s.data, from + 1, r + n));
  }

  lemma SeqsRegroup<T>(a: seq<T>, b: seq<T>, c: seq<T>, d: seq<T>)
    ensures a + (b + c) + d == a + b + (c + d)
  {
  }

  /** Left alone, any read that is under way finishes; one that asks for everything published
      gets it. */
  lemma FinishesRead<T>(s: Ring<T>) returns (rest: seq<Action<T>>, to: nat)
    requires s.Capacity() > 0 && Readable(s) && !s.consumer.Resting?
    ensures Cursor(s) <= to <= s.write && Run(s, rest) == Finished(s, to)
    ensures s.consumer.LoadingOwn? && s.consumer.count >= s.write - s.read ==> to == s.write
  {
    match s.consumer
    case LoadingOwn(_) =>
      rest, to := LoadsAndFinishes(ConsumeStep(s));
      RunCons(s, Consume, rest);
      rest := [Consume] + rest;
    case LoadingTheirs(_, _) =>
      rest, to := LoadsAndFinishes(s);
    case CopyingOut(r, n, _) =>
      rest := CopiesOut(s);
      to := r + n;
  }

  lemma LoadsAndFinishes<T>(s: Ring<T>) returns (rest: seq<Action<T>>, to: nat)
    requires s.Capacity() > 0 && Readable(s) && s.consumer.LoadingTheirs?
    ensures Cursor(s) <= to <= s.write && Run(s, rest) == Finished(s, to)
    ensures s.consumer.count >= s.write - s.consumer.r ==> to == s.write
  {
    var t := ConsumeStep(s);
    WrapFree(s.write, s.consumer.r);
    rest := CopiesOut(t);
    RunCons(s, Consume, rest);
    rest, to := [Consume] + rest, t.consumer.r + t.consumer.n;
    SameFinish(s, to);
  }

  /** Loading the writer's index leaves what is still to be delivered. */
  lemma SameFinish<T>(s: Ring<T>, to: nat)
    requires s.Capacity() > 0 && s.consumer.LoadingTheirs? && s.consumer.r <= to
    ensures Finished(ConsumeStep(s), to) == Finished(s, to)
  {
  }

  /** From here everything published from the cursor on is delivered, the end at rest. */
  lemma Drains<T>(s: Ring<T>) returns (rest: seq<Action<T>>)
    requires s.Capacity() > 0 && Readable(s)
    ensures Run(s, rest) == Finished(s, s.write)
  {
    if s.consumer.Resting? {
      rest := DrainsAtRest(s);
      assert s.delivered + [] == s.delivered;
    } else {
      var first, to := FinishesRead(s);
      var t := Finished(s, to);
      rest := DrainsAtRest(t);
      RunConcat(s, first, rest);
      rest := first + rest;
      WindowSplit(s.data, Cursor(s), to, s.write);
      assert s.delivered + Got(s) + Window(s.data, Cursor(s), to) + Window(s.data, to, s.write)
          == s.delivered + Got(s) + Window(s.data, Cursor(s), s.write);
    }
  }

  lemma DrainsAtRest<T>(s: Ring<T>) returns (rest: seq<Action<T>>)
    requires s.Capacity() > 0 && Readable(s) && s.consumer.Resting?
    ensures Run(s, rest) == s.(read := s.write, delivered := s.delivered + Window(s.data, s.read, s.write))
  {
    var start := StartRead(s.write - s.read);
    var to;
    rest, to := FinishesRead(Step(s, start));
    RunCons(s, start, rest);
    rest := [start] + rest;
    assert s.delivered + [] == s.delivered;
  }

  /** The item an unsafe drop makes the consumer return twice, by its index: the one it
      returned last, or the one now stored where it looks next. */
  function Victim<T>(s: Ring<T>): int {
    if IdleReader(s) then s.read - 1 else Cursor(s) + s.Capacity()
  }

  predicate IdleReader<T>(s: Ring<T>) {
    s.consumer.Resting? || s.consumer.LoadingOwn?
  }

  /** Where the victim is seen: just before the index that moves back to `from`, or at
      `from`, the next index looked at, and a capacity later. */
  predicate AtStake<T(==)>(s: Ring<T>, kept: seq<T>, from: nat) {
    if IdleReader(s) then |kept| - s.Capacity() <= from < s.read <= |kept| && LastIs(s.delivered, kept, s.read)
    else from == Cursor(s) && from + s.Capacity() < |kept| <= from + 2 * s.Capacity()
  }

  lemma VictimIsKept<T>(s: Ring<T>, kept: seq<T>)
    requires DropInv(s, kept) && s.producer.Dropping? && !SafeDrop(s, Produce)
    ensures 0 <= Victim(s) < |kept| && AtStake(s, kept, Cursor(ProduceStep(s)))
    ensures WriterOk(ProduceStep(s), kept) && Cursor(ProduceStep(s)) <= |kept|
  {
  }

  /** Dropping while that is not safe can always be made to return one item twice. */
  lemma UnsafeDropRepeats<T>(s: Ring<T>, kept: seq<T>) returns (rest: seq<Action<T>>, i: nat, j: nat)
    requires DropInv(s, kept) && s.producer.Dropping? && !SafeDrop(s, Produce) && 2 * s.Capacity() < U64
    ensures 0 <= Victim(s) < |kept|
    ensures var end := Run(s, rest);
      && end.producer.Quiet? && end.consumer.Resting? && end.input == s.input
      && i < j < |end.delivered| && end.delivered[i] == end.delivered[j] == kept[Victim(s)]
  {
    VictimIsKept(s, kept);
    var t, top := ProduceStep(s), |kept|;
    var publish, data := Publishes(t, kept);
    var u := t.(data := data, write := top, producer := Quiet);
    var drain := Drains(u);
    RunConcat(t, publish, drain);
    RunCons(s, Produce, publish + drain);
    rest := [Produce] + (publish + drain);
    i, j := SeenTwice(s, u, kept);
  }

  lemma SeenTwice<T>(s: Ring<T>, u: Ring<T>, kept: seq<T>) returns (i: nat, j: nat)
    requires s.Capacity() > 0 && AtStake(s, kept, Cursor(u)) && 0 <= Victim(s) < |kept|
    requires u.Capacity() == s.Capacity() && Holding(u.data, kept, |kept|) && Cursor(u) <= |kept| == u.write
    requires u.consumer == s.consumer && u.delivered == s.delivered
    ensures var all := Finished(u, |kept|).delivered;
      i < j < |all| && all[i] == all[j] == kept[Victim(s)]
  {
    var from, front := Cursor(u), u.delivered + Got(u);
    if IdleReader(s) {
      assert front == s.delivered;
      AgainFromRest(front, u.data, kept, from, s.read);
      i, j := |front| - 1, |front| + (s.read - 1 - from);
    } else {
      AgainUnderReader(front, u.data, kept, from);
      i, j := |front|, |front| + s.Capacity();
    }
  }

  lemma AgainFromRest<T>(delivered: seq<T>, data: seq<T>, kept: seq<T>, from: nat, read: nat)
    requires |data| > 0 && Holding(data, kept, |kept|) && LastIs(delivered, kept, read)
    requires |kept| - |data| <= from < read <= |kept|
    ensures var all := delivered + Window(data, from, |kept|);
      all[|delivered| - 1] == all[|delivered| + (read - 1 - from)] == kept[read - 1]
  {
    InWindow(data, kept, from, read - 1);
  }

  lemma AgainUnderReader<T>(front: seq<T>, data: seq<T>, kept: seq<T>, from: nat)
    requires |data| > 0 && Holding(data, kept, |kept|)
    requires from + |data| < |kept| <= from + 2 * |data|
    ensures var all := front + Window(data, from, |kept|);
      all[|front|] == all[|front| + |data|] == kept[from + |data|]
  {
    ModShift(from, 1, |data|);
    InWindow(data, kept, from, from + |data|);
    assert Window(data, from, |kept|)[0] == data[Slot(from, |data|)];
  }

  lemma InWindow<T>(data: seq<T>, kept: seq<T>, from: nat, k: nat)
    requires |data| > 0 && Holding(data, kept, |kept|) && from <= k < |kept| && |kept| - |data| <= k
    ensures Window(data, from, |kept|)[k - from] == data[Slot(k, |data|)] == kept[k]
  {
  }

  predicate OfferedOnce<T(==)>(item: T, input: seq<T>) {
    forall p, q | 0 <= p < q < |input| :: input[p] == item ==> input[q] != item
  }

  /** An item offered only once cannot be returned twice in order. */
  lemma TwiceIsOutOfOrder<T>(delivered: seq<T>, input: seq<T>, i: nat, j: nat)
    requires i < j < |delivered| && delivered[i] == delivered[j]
    ensures OfferedOnce(delivered[i], input) ==>
              !exists picks: seq<nat> :: PickedFrom(delivered, input, picks)
  {
    forall picks: seq<nat> | OfferedOnce(delivered[i], input)
      ensures !PickedFrom(delivered, input, picks)
    {
      if |picks| == |delivered| && picks[i] < picks[j] < |input| && input[picks[j]] == delivered[j] {
        assert input[picks[i]] != delivered[i];
      }
    }
  }

  /** The condition is exact.  Where a drop comes next and is not safe, the two ends have a
      way on, to where both are idle, after which one item has been returned twice; if it was
      offered once, what was delivered is in no order a picking from the input. */
  lemma UnsafeDropBreaks<T>(slots: seq<T>, schedule: seq<Action<T>>)
      returns (rest: seq<Action<T>>, i: nat, j: nat)
    requires 0 < |slots| && 2 * |slots| < U64 && Guarded(Empty(slots), schedule)
    requires Run(Empty(slots), schedule).producer.Dropping? && !SafeDrop(Run(Empty(slots), schedule), Produce)
    ensures var s, kept := Run(Empty(slots), schedule), Kept(Empty(slots), schedule);
      var end := Run(Empty(slots), schedule + rest);
      && end.producer.Quiet? && end.consumer.Resting? && end.input == s.input
      && 0 <= Victim(s) < |kept|
      && i < j < |end.delivered| && end.delivered[i] == end.delivered[j] == kept[Victim(s)]
      && (OfferedOnce(kept[Victim(s)], s.input) ==>
            !exists picks: seq<nat> :: PickedFrom(end.delivered, end.input, picks))
  {
    GuardedKeeps(slots, schedule);
    var s := Run(Empty(slots), schedule);
    rest, i, j := UnsafeDropRepeats(s, Kept(Empty(slots), schedule));
    RunConcat(Empty(slots), schedule, rest);
    TwiceIsOutOfOrder(Run(s, rest).delivered, s.input, i, j);
  }

  /** Such a drop is in reach at every size: the reader of a full ring has loaded both
      indices when one more item is written. */
  lemma DropOldestIsNotConcurrent<T>(slots: seq<T>, a: T, b: T) returns (schedule: seq<Action<T>>)
    requires 0 < |slots| && 2 * |slots| < U64 && a != b
    ensures var end := Run(Empty(slots), schedule);
      && end.producer.Quiet? && end.consumer.Resting?
      && end.input == Repeat(a, |slots|) + [b]
      && !exists picks: seq<nat> :: PickedFrom(end.delivered, end.input, picks)
  {
    var n := |slots|;
    var before := FullAndLoaded(slots, a);
    ReachDrop(Empty(slots), before, b);
    var loaded := before + [StartWrite([b])] + [Produce];
    RunAppend(Empty(slots), loaded, Produce);
    var s := Run(Empty(slots), loaded + [Produce]);
    var kept := Repeat(a, n) + [b];
    LoadedIsReachable(s, kept, a, b, n);
    var rest, i, j := UnsafeDropRepeats(s, kept);
    RunConcat(Empty(slots), loaded + [Produce], rest);
    schedule := loaded + [Produce] + rest;
    var end := Run(s, rest);
    TwiceIsOutOfOrder(end.delivered, end.input, i, j);
  }

  lemma LoadedIsReachable<T>(s: Ring<T>, kept: seq<T>, a: T, b: T, n: nat)
    requires 0 < n && n < U64 && kept == Repeat(a, n) + [b]
    requires s == Ring(Repeat(a, n), n, 0, Dropping([b], n, 1), CopyingOut(0, n, []), kept, [])
    ensures DropInv(s, kept) && !SafeDrop(s, Produce) && Victim(s) == n
  {
    var none: seq<nat> := [];
    assert PickedBelow(s.delivered, kept, none, Base(s));
    assert History(s, kept);
    assert kept[n..] == [b];
    assert forall k: nat | k < n :: s.data[Slot(k, n)] == a == kept[k];
    assert Holding(s.data, kept, n);
    assert WriterOk(s, kept);
    assert kept[0..0] == [];
  }
}
