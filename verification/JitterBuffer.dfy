/** The adaptive jitter buffer of shared/media/src/jitter_buffer.cpp: ordered playout under
    32-bit sequence wrap (the serial-number comparison of section 3.2 of RFC 1982) with an
    arrival-jitter estimate after section 6.4.1 of RFC 3550. */
module JitterBuffers {
  import opened Basics

  const HALF: nat := 0x8000_0000
  const FRAME_MS: nat := 20
  const FRAME_SAMPLES: nat := 960

  type u32 = x: int | 0 <= x < 0x1_0000_0000

  type Payload = seq<int>

  datatype Config = Config(targetMs: u32, minMs: u32, maxMs: u32, prefillMs: u32, adaptive: bool) {
    function MaxEntries(): (n: nat)
      ensures n < HALF
    {
      maxMs / FRAME_MS + 4
    }
  }

  datatype Stats = Stats(pushed: nat, popped: nat, concealed: nat, duplicates: nat, tooLate: nat,
                         reordered: nat, overflow: nat)

  const NO_STATS: Stats := Stats(0, 0, 0, 0, 0, 0, 0)

  /** The estimator of arrival jitter and the target depth it drives. */
  datatype Pace = Pace(targetMs: int, jitter: real, previous: nat, havePrevious: bool)

  datatype Buffer = Buffer(queue: map<u32, Payload>, started: bool, next: u32, pace: Pace, stats: Stats)

  function NewBuffer(cfg: Config): Buffer {
    Buffer(map[], false, 0, Pace(cfg.targetMs, 0.0, 0, false), NO_STATS)
  }

  // ---------------------------------------------------------------- serial numbers

  /** How far `seq` is ahead of `next` on the 32-bit circle. */
  function Ahead(key: u32, next: u32): nat {
    (key - next) % U32
  }

  /** The signed 32-bit difference is negative. */
  predicate Late(key: u32, next: u32) {
    Ahead(key, next) >= HALF
  }

  function Succ(key: u32): u32 {
    (key + 1) % U32
  }

  function Plus(key: u32, n: nat): u32 {
    (key + n) % U32
  }

  // ---------------------------------------------------------------- pushing

  function Clamp(x: int, lo: int, hi: int): int {
    if x < lo then lo else if x > hi then hi else x
  }

  function Adapt(p: Pace, cfg: Config, arrivalMs: nat): Pace {
    var delta := Abs(((arrivalMs - p.previous) % U64) as real - FRAME_MS as real);
    var jitter := if p.havePrevious then p.jitter + (delta - p.jitter) / 16.0 else p.jitter;
    var want := (Ceil(jitter * 3.0) % U32 + cfg.minMs) % U32;
    var clamped := Clamp(want, cfg.minMs, cfg.maxMs);
    var target :=
      if !cfg.adaptive then p.targetMs
      else if clamped > p.targetMs then clamped
      else if clamped + FRAME_MS < p.targetMs then p.targetMs - FRAME_MS
      else p.targetMs;
    Pace(target, jitter, arrivalMs, true)
  }

  ghost predicate IsMin(key: u32, queue: map<u32, Payload>) {
    key in queue && forall k | k in queue :: key <= k
  }

  lemma {:induction false} MinExists(keys: set<u32>) returns (key: u32)
    requires keys != {}
    ensures key in keys && forall k | k in keys :: key <= k
    decreases |keys|
  {
    var first :| first in keys;
    var rest := keys - {first};
    if rest == {} {
      key := first;
      assert keys == {first};
    } else {
      var other := MinExists(rest);
      key := if other < first then other else first;
      assert forall k | k in keys :: k == first || k in rest;
    }
  }

  /** The smallest raw key, which is the first one in the ordered map. */
  ghost function MinKey(queue: map<u32, Payload>): (key: u32)
    requires |queue| > 0
    ensures IsMin(key, queue)
  {
    assert exists k :: IsMin(k, queue) by {
      assert queue.Keys != {};
      var k := MinExists(queue.Keys);
      assert IsMin(k, queue);
    }
    var k :| IsMin(k, queue);
    k
  }

  function Drop(queue: map<u32, Payload>, key: u32): map<u32, Payload> {
    map k | k in queue && k != key :: queue[k]
  }

  /** Inserting into a full queue first drops the entry with the smallest raw key. */
  ghost function Insert(b: Buffer, cfg: Config, key: u32, payload: Payload): Buffer {
    if |b.queue| >= cfg.MaxEntries()
    then b.(queue := Drop(b.queue, MinKey(b.queue))[key := payload],
            stats := b.stats.(overflow := b.stats.overflow + 1))
    else b.(queue := b.queue[key := payload])
  }

  function Arrived(b: Buffer, cfg: Config, key: u32, arrivalMs: nat): Buffer {
    b.(pace := Adapt(b.pace, cfg, arrivalMs), started := true,
       next := if b.started then b.next else key,
       stats := b.stats.(pushed := b.stats.pushed + 1))
  }

  /** Something newer, by raw number, is queued already. */
  predicate OutOfOrder(queue: map<u32, Payload>, key: u32) {
    exists k | k in queue :: key < k
  }

  function Noted(b: Buffer, key: u32): Buffer {
    if OutOfOrder(b.queue, key) then b.(stats := b.stats.(reordered := b.stats.reordered + 1)) else b
  }

  ghost function AfterPush(b: Buffer, cfg: Config, key: u32, payload: Payload, arrivalMs: nat): Buffer {
    var a := Arrived(b, cfg, key, arrivalMs);
    if Late(key, a.next) then a.(stats := a.stats.(tooLate := a.stats.tooLate + 1))
    else if key in a.queue then a.(stats := a.stats.(duplicates := a.stats.duplicates + 1))
    else Insert(Noted(a, key), cfg, key, payload)
  }

  // ---------------------------------------------------------------- popping

  datatype Output = Silence | Concealed | Played(payload: Payload)

  function Popped(b: Buffer): Output {
    if !b.started then Silence
    else if b.next in b.queue then Played(b.queue[b.next])
    else Concealed
  }

  function AfterPop(b: Buffer): Buffer {
    if !b.started then b
    else if b.next in b.queue then
      b.(queue := Drop(b.queue, b.next), next := Succ(b.next), stats := b.stats.(popped := b.stats.popped + 1))
    else
      b.(next := if b.queue == map[] then b.next else Succ(b.next),
         stats := b.stats.(concealed := b.stats.concealed + 1))
  }

  function DepthMs(b: Buffer): nat {
    |b.queue| * FRAME_MS
  }

  predicate Ready(b: Buffer, cfg: Config) {
    b.started && DepthMs(b) >= cfg.prefillMs
  }

  // ---------------------------------------------------------------- invariants

  predicate ConfigOk(cfg: Config) {
    cfg.minMs <= cfg.maxMs < U32
  }

  ghost predicate Inv(b: Buffer, cfg: Config) {
    // Every queued key is less than 2^31 ahead of the next one to play.
    && (forall k | k in b.queue :: Ahead(k, b.next) < 0x8000_0000)
    && (!b.started ==> b.queue == map[])
    && |b.queue| <= cfg.maxMs / 20 + 4
    && b.stats.pushed == b.stats.popped + b.stats.duplicates + b.stats.tooLate + b.stats.overflow + |b.queue|
  }

  lemma DropSize(queue: map<u32, Payload>, key: u32)
    requires key in queue
    ensures |Drop(queue, key)| == |queue| - 1
  {
    assert Drop(queue, key).Keys == queue.Keys - {key};
  }

  lemma AddSize(queue: map<u32, Payload>, key: u32, payload: Payload)
    requires key !in queue
    ensures |queue[key := payload]| == |queue| + 1
  {
    assert queue[key := payload].Keys == queue.Keys + {key};
  }

  lemma AheadSteps(key: u32, next: u32)
    requires key != next
    ensures Ahead(key, next) > 0 && Ahead(key, Succ(next)) == Ahead(key, next) - 1
  {
  }

  lemma PushKeeps(b: Buffer, cfg: Config, key: u32, payload: Payload, arrivalMs: nat)
    requires Inv(b, cfg)
    ensures Inv(AfterPush(b, cfg, key, payload, arrivalMs), cfg)
  {
    var a := Arrived(b, cfg, key, arrivalMs);
    if !Late(key, a.next) && key !in a.queue {
      if |a.queue| >= cfg.MaxEntries() {
        var least := MinKey(a.queue);
        DropSize(a.queue, least);
        AddSize(Drop(a.queue, least), key, payload);
      } else {
        AddSize(a.queue, key, payload);
      }
    }
  }

  lemma PopKeeps(b: Buffer, cfg: Config)
    requires Inv(b, cfg)
    ensures Inv(AfterPop(b), cfg)
  {
    if b.started {
      if b.next in b.queue {
        DropSize(b.queue, b.next);
      }
      forall k | k in AfterPop(b).queue
        ensures Ahead(k, AfterPop(b).next) < HALF
      {
        AheadSteps(k, b.next);
      }
    }
  }

  datatype Call = Pushing(key: u32, payload: Payload, arrivalMs: nat) | Popping | Resetting

  ghost function Apply(b: Buffer, cfg: Config, c: Call): Buffer {
    match c
    case Pushing(key, payload, at) => AfterPush(b, cfg, key, payload, at)
    case Popping => AfterPop(b)
    case Resetting => NewBuffer(cfg)
  }

  ghost function ApplyAll(b: Buffer, cfg: Config, calls: seq<Call>): Buffer {
    if calls == [] then b else Apply(ApplyAll(b, cfg, calls[..|calls| - 1]), cfg, calls[|calls| - 1])
  }

  /** In every run: serial distances below 2^31, a bounded queue, and every packet pushed
      since the last reset was played, refused as duplicate or late, dropped, or is queued. */
  lemma {:induction false} EveryRunConserves(cfg: Config, calls: seq<Call>)
    ensures Inv(ApplyAll(NewBuffer(cfg), cfg, calls), cfg)
  {
    if calls != [] {
      var front := calls[..|calls| - 1];
      EveryRunConserves(cfg, front);
      var b := ApplyAll(NewBuffer(cfg), cfg, front);
      match calls[|calls| - 1] {
        case Pushing(key, payload, at) => PushKeeps(b, cfg, key, payload, at);
        case Popping => PopKeeps(b, cfg);
        case Resetting =>
      }
    }
  }

  /** For any arrival times the target stays in its bounds if it starts there. */
  lemma {:induction false} TargetStaysInBounds(cfg: Config, calls: seq<Call>)
    requires ConfigOk(cfg) && cfg.minMs <= cfg.targetMs <= cfg.maxMs
    ensures cfg.minMs <= ApplyAll(NewBuffer(cfg), cfg, calls).pace.targetMs <= cfg.maxMs
  {
    if calls != [] {
      TargetStaysInBounds(cfg, calls[..|calls| - 1]);
    }
  }

  // ---------------------------------------------------------------- what is counted

  /** Before the first packet there is silence, nothing is counted, and the buffer is not
      ready, however small the prefill; the first packet starts it there. */
  lemma BeforeTheFirstPacket(cfg: Config, key: u32, payload: Payload, now: nat)
    ensures var b := NewBuffer(cfg);
      && Popped(b).Silence? && AfterPop(b) == b && !Ready(b, cfg)
      && var a := AfterPush(b, cfg, key, payload, now); a.next == key && Popped(a) == Played(payload)
  {
    assert Ahead(key, key) == 0;
  }

  /** Every frame asked of a started buffer is either played or concealed, and counted so. */
  lemma PopIsCounted(b: Buffer)
    requires b.started
    ensures var a := AfterPop(b);
      && (Popped(b).Played? <==> a.stats.popped == b.stats.popped + 1)
      && (Popped(b).Concealed? <==> a.stats.concealed == b.stats.concealed + 1)
      && a.stats.popped + a.stats.concealed == b.stats.popped + b.stats.concealed + 1
      && (Popped(b).Played? <==> |a.queue| == |b.queue| - 1)
  {
    if b.next in b.queue {
      DropSize(b.queue, b.next);
    }
  }

  /** Every packet pushed is counted as one of: late, duplicate, or taken in; and a packet that
      is taken in behind a larger number as reordered. */
  lemma PushIsCounted(b: Buffer, cfg: Config, key: u32, payload: Payload, now: nat)
    requires b.started
    ensures var s, t := b.stats, AfterPush(b, cfg, key, payload, now).stats;
      && t.pushed == s.pushed + 1
      && t.tooLate == s.tooLate + (if Ahead(key, b.next) >= 0x8000_0000 then 1 else 0)
      && t.duplicates == s.duplicates + (if Ahead(key, b.next) < 0x8000_0000 && key in b.queue then 1 else 0)
      && (t.tooLate == s.tooLate && t.duplicates == s.duplicates ==>
            && key in AfterPush(b, cfg, key, payload, now).queue
            && (t.reordered > s.reordered <==> exists k :: k in b.queue && key < k)
            && (t.overflow > s.overflow <==> |b.queue| >= cfg.maxMs / 20 + 4))
      && (t.tooLate > s.tooLate || t.duplicates > s.duplicates ==>
            AfterPush(b, cfg, key, payload, now).queue == b.queue && t.reordered == s.reordered && t.overflow == s.overflow)
  {
  }

  // ---------------------------------------------------------------- the adaptive target

  /** The estimate is a running mean: a sixteenth of it is the new deviation from an interval
      of 20 ms. */
  lemma EstimateMoves(p: Pace, cfg: Config, now: nat)
    requires p.havePrevious && p.previous <= now < U64
    ensures var q, deviation := Adapt(p, cfg, now), Abs((now - p.previous) as real - 20.0);
      && 16.0 * q.jitter == 15.0 * p.jitter + deviation
      && q.previous == now && q.havePrevious
      && (p.jitter <= deviation ==> p.jitter <= q.jitter <= deviation)
      && (deviation <= p.jitter ==> deviation <= q.jitter <= p.jitter)
  {
    assert (now - p.previous) % U64 == now - p.previous;
  }

  /** Up at once and down by a frame at a time: after an arrival the target covers the minimum
      and three times the estimate, or as much of it as the maximum allows; it never falls by
      more than 20 ms, and by exactly that whenever it is more than 20 ms too high. */
  lemma TargetFollows(p: Pace, cfg: Config, now: nat)
    requires cfg.adaptive && cfg.minMs <= cfg.maxMs
    requires var j := Adapt(p, cfg, now).jitter; j >= 0.0 && j * 3.0 + cfg.minMs as real < U32 as real - 1.0
    ensures var q := Adapt(p, cfg, now);
      var wanted := q.jitter * 3.0 + cfg.minMs as real;
      && (q.targetMs as real >= wanted || q.targetMs >= cfg.maxMs)
      && (q.targetMs > p.targetMs ==>
            q.targetMs <= cfg.maxMs && (q.targetMs as real < wanted + 1.0 || q.targetMs == cfg.minMs))
      && q.targetMs >= p.targetMs - 20
      && (p.targetMs as real > wanted + 21.0 || p.targetMs > cfg.maxMs + 20 ==> q.targetMs == p.targetMs - 20)
  {
  }

  /** What is not adaptive stays. */
  lemma TargetIsFixed(cfg: Config, calls: seq<Call>)
    requires !cfg.adaptive
    ensures ApplyAll(NewBuffer(cfg), cfg, calls).pace.targetMs == cfg.targetMs
  {
    if calls != [] {
      TargetIsFixed(cfg, calls[..|calls| - 1]);
    }
  }

  /** Packets that come exactly 20 ms apart, the first one at `start`. */
  function Even(p: Pace, cfg: Config, start: nat, n: nat): Pace {
    if n == 0 then p else Adapt(Even(p, cfg, start, n - 1), cfg, start + 20 * (n - 1))
  }

  /** They bring a target that was raised back to within a frame of the minimum. */
  lemma {:induction false} EvenArrivalsNarrow(p: Pace, cfg: Config, start: nat, n: nat)
    requires cfg.adaptive && cfg.minMs <= p.targetMs <= cfg.maxMs && !p.havePrevious && p.jitter == 0.0
    requires start + 20 * n < U64
    ensures var q := Even(p, cfg, start, n);
      && q.jitter == 0.0 && (n > 0 ==> q.havePrevious && q.previous == start + 20 * (n - 1))
      && cfg.minMs <= q.targetMs <= cfg.maxMs
      && (p.targetMs - 20 * n <= cfg.minMs + 20 ==> q.targetMs <= cfg.minMs + 20)
      && (p.targetMs - 20 * n > cfg.minMs ==> q.targetMs == p.targetMs - 20 * n)
  {
    if n > 0 {
      EvenArrivalsNarrow(p, cfg, start, n - 1);
      if n > 1 {
        EstimateMoves(Even(p, cfg, start, n - 1), cfg, start + 20 * (n - 1));
      }
      NoJitterNarrows(Even(p, cfg, start, n - 1), cfg, start + 20 * (n - 1));
    }
  }

  lemma NoJitterNarrows(p: Pace, cfg: Config, now: nat)
    requires cfg.adaptive && cfg.minMs <= p.targetMs <= cfg.maxMs && Adapt(p, cfg, now).jitter == 0.0
    ensures Adapt(p, cfg, now).targetMs == if p.targetMs > cfg.minMs + 20 then p.targetMs - 20 else p.targetMs
  {
  }

  predicate SameButPace(a: Buffer, b: Buffer) {
    a.queue == b.queue && a.started == b.started && a.next == b.next && a.stats == b.stats
  }

  /** The same calls, at other times. */
  predicate SameButTimes(calls: seq<Call>, others: seq<Call>) {
    && |calls| == |others|
    && forall i | 0 <= i < |calls| ::
         if calls[i].Pushing? then others[i].Pushing? && others[i].key == calls[i].key && others[i].payload == calls[i].payload
         else others[i] == calls[i]
  }

  lemma PaceStep(a: Buffer, b: Buffer, cfg: Config, other: Config, c: Call, d: Call)
    requires SameButPace(a, b) && cfg.maxMs == other.maxMs && SameButTimes([c], [d])
    ensures SameButPace(Apply(a, cfg, c), Apply(b, other, d))
  {
    assert [c][0] == c && [d][0] == d;
  }

  /** The target decides nothing: whatever it is, and whenever the packets come, the same
      calls leave the same queue and the next frame plays the same. */
  lemma {:induction false} TargetDecidesNothing(cfg: Config, other: Config, calls: seq<Call>, others: seq<Call>)
    requires cfg.maxMs == other.maxMs && SameButTimes(calls, others)
    ensures var a, b := ApplyAll(NewBuffer(cfg), cfg, calls), ApplyAll(NewBuffer(other), other, others);
      SameButPace(a, b) && Popped(a) == Popped(b)
  {
    if calls != [] {
      var n := |calls| - 1;
      TargetDecidesNothing(cfg, other, calls[..n], others[..n]);
      PaceStep(ApplyAll(NewBuffer(cfg), cfg, calls[..n]), ApplyAll(NewBuffer(other), other, others[..n]),
               cfg, other, calls[n], others[n]);
    }
  }

  // ---------------------------------------------------------------- playout order

  ghost function PopN(b: Buffer, n: nat): Buffer {
    if n == 0 then b else AfterPop(PopN(b, n - 1))
  }

  /** What the n-th pop from here returns, with no pushes in between. */
  ghost function OutputAt(b: Buffer, n: nat): Output {
    Popped(PopN(b, n))
  }

  /** Everything queued is less than `span` ahead. */
  ghost predicate Within(b: Buffer, span: nat) {
    forall k | k in b.queue :: Ahead(k, b.next) < span
  }

  /** Some entry is exactly this far ahead: the furthest key, which measures the drain. */
  ghost predicate Furthest(b: Buffer, span: nat) {
    Within(b, span + 1) && exists k :: k in b.queue && Ahead(k, b.next) == span
  }

  lemma AheadOfPlus(next: u32, n: nat)
    requires n < U32
    ensures Ahead(Plus(next, n), next) == n
    ensures Plus(Succ(next), n) == Plus(next, n + 1)
  {
  }

  /** The entries at least n ahead. */
  ghost function Beyond(b: Buffer, n: nat): map<u32, Payload> {
    map k | k in b.queue && Ahead(k, b.next) >= n :: b.queue[k]
  }

  lemma BeyondNext(b: Buffer, n: nat, at: u32)
    requires n < U32 && at == Plus(b.next, n)
    ensures Beyond(b, n + 1) == if at in Beyond(b, n) then Drop(Beyond(b, n), at) else Beyond(b, n)
    ensures at in b.queue ==> at in Beyond(b, n)
  {
    AheadOfPlus(b.next, n);
    forall k | k in b.queue && Ahead(k, b.next) == n
      ensures k == at
    {
      PlusAhead(k, b.next);
    }
  }

  lemma PlusAhead(key: u32, next: u32)
    ensures Plus(next, Ahead(key, next)) == key
  {
  }

  lemma SuccMoves(key: u32, first: u32, position: nat)
    requires key == Plus(first, position)
    ensures Succ(key) != key && Succ(key) == Plus(first, position + 1)
  {
  }

  lemma PopOne(b: Buffer, d: Buffer, n: nat)
    requires n < U32 - 1 && d.started && d.next == Plus(b.next, n)
    requires d.queue == Beyond(b, n) && d.queue != map[]
    ensures AfterPop(d).started && AfterPop(d).next == Plus(b.next, n + 1) && AfterPop(d).queue == Beyond(b, n + 1)
  {
    BeyondNext(b, n, d.next);
    SuccMoves(d.next, b.next, n);
    if d.next in d.queue {
      assert AfterPop(d).queue == Drop(d.queue, d.next);
    } else {
      assert AfterPop(d).queue == d.queue && AfterPop(d).next == Succ(d.next);
    }
  }

  /** Draining: while the furthest entry lies ahead, pop after pop moves on by one serial
      number and leaves the entries beyond it untouched. */
  lemma {:induction false} DrainStep(b: Buffer, span: nat, n: nat)
    requires b.started && span < HALF && Furthest(b, span) && n <= span + 1
    ensures PopN(b, n).started && PopN(b, n).next == Plus(b.next, n) && PopN(b, n).queue == Beyond(b, n)
  {
    if n == 0 {
      assert Beyond(b, 0) == b.queue;
    } else {
      DrainStep(b, span, n - 1);
      var far :| far in b.queue && Ahead(far, b.next) == span;
      assert far in Beyond(b, n - 1);
      PopOne(b, PopN(b, n - 1), n - 1);
    }
  }

  /** Pops without pushes play exactly the queued payloads, each at its serial distance,
      and conceal in the gaps; after the furthest one the queue is empty, and from then on
      every pop conceals and holds its place. */
  lemma PlaysInOrder(b: Buffer, span: nat, n: nat)
    requires b.started && span < HALF && Furthest(b, span) && n <= span
    ensures OutputAt(b, n) == if Plus(b.next, n) in b.queue then Played(b.queue[Plus(b.next, n)]) else Concealed
  {
    DrainStep(b, span, n);
    AheadOfPlus(b.next, n);
    BeyondNext(b, n, Plus(b.next, n));
  }

  lemma PlaysInSerialOrder(b: Buffer, cfg: Config, span: nat, n: nat)
    requires Inv(b, cfg) && b.started && Furthest(b, span)
    ensures n <= span ==>
              OutputAt(b, n) == if Plus(b.next, n) in b.queue then Played(b.queue[Plus(b.next, n)]) else Concealed
    ensures n > span ==>
              OutputAt(b, n) == Concealed && PopN(b, n).queue == map[] && PopN(b, n).next == Plus(b.next, span + 1)
  {
    if n <= span {
      PlaysInOrder(b, span, n);
    } else {
      DrainStep(b, span, span + 1);
      assert Beyond(b, span + 1) == map[];
      EmptyHolds(b, span + 1, n);
    }
  }

  lemma {:induction false} EmptyHolds(b: Buffer, m: nat, n: nat)
    requires m <= n && PopN(b, m).queue == map[] && PopN(b, m).started
    ensures PopN(b, n).queue == map[] && PopN(b, n).started && PopN(b, n).next == PopN(b, m).next
  {
    if m < n {
      EmptyHolds(b, m, n - 1);
    }
  }

  // ---------------------------------------------------------------- readiness

  /** How many of the next n pops play a packet, if nothing more arrives. */
  ghost function PlaysIn(b: Buffer, n: nat): nat {
    if n == 0 then 0 else PlaysIn(b, n - 1) + (if OutputAt(b, n - 1).Played? then 1 else 0)
  }

  lemma PopApproaches(b: Buffer, cfg: Config, span: nat)
    requires Inv(b, cfg) && b.started && Within(b, span + 1)
    ensures Within(AfterPop(b), span) && AfterPop(b).started
  {
    forall k | k in AfterPop(b).queue
      ensures Ahead(k, AfterPop(b).next) < span
    {
      AheadSteps(k, b.next);
    }
  }

  lemma {:induction false} PlaysAreQueued(b: Buffer, cfg: Config, span: nat, n: nat)
    requires Inv(b, cfg) && b.started && Within(b, span) && n <= span
    ensures PlaysIn(b, n) + |PopN(b, n).queue| == |b.queue|
    ensures Inv(PopN(b, n), cfg) && PopN(b, n).started && Within(PopN(b, n), span - n)
  {
    if n > 0 {
      PlaysAreQueued(b, cfg, span, n - 1);
      var d := PopN(b, n - 1);
      PopKeeps(d, cfg);
      PopApproaches(d, cfg, span - n);
      if d.next in d.queue {
        DropSize(d.queue, d.next);
      }
    }
  }

  /** The buffer is ready exactly when what it would play without another arrival, popped
      to the end, lasts at least as long as the prefill. */
  lemma ReadyIff(b: Buffer, cfg: Config, n: nat)
    requires Inv(b, cfg) && b.started && Within(b, n)
    ensures PlaysIn(b, n) == |b.queue|
    ensures Ready(b, cfg) <==> PlaysIn(b, n) * 20 >= cfg.prefillMs
  {
    PlaysAreQueued(b, cfg, n, n);
    var end := PopN(b, n);
    assert forall k :: k !in end.queue;
    assert end.queue == map[];
  }

  // ---------------------------------------------------------------- one epoch

  datatype Play = Play(position: nat, payload: Payload)
  datatype Packet = Packet(key: u32, payload: Payload)

  /** A buffer with the history of its reset epoch: the first key, how far playout has
      moved on from it (unwrapped), what was pushed and what was played where. */
  datatype Epoch = Epoch(b: Buffer, first: u32, position: nat, pushed: set<Packet>, plays: seq<Play>)

  ghost function EpochStep(e: Epoch, cfg: Config, c: Call): Epoch {
    var b := Apply(e.b, cfg, c);
    match c
    case Pushing(key, payload, _) =>
      e.(b := b, first := if e.b.started then e.first else key, pushed := e.pushed + {Packet(key, payload)})
    case Popping =>
      e.(b := b, position := if b.next == e.b.next then e.position else e.position + 1,
         plays := if Popped(e.b).Played? then e.plays + [Play(e.position, Popped(e.b).payload)] else e.plays)
    case Resetting => NewEpoch(cfg)
  }

  function NewEpoch(cfg: Config): Epoch {
    Epoch(NewBuffer(cfg), 0, 0, {}, [])
  }

  ghost function EpochAfter(cfg: Config, calls: seq<Call>): Epoch {
    if calls == [] then NewEpoch(cfg)
    else EpochStep(EpochAfter(cfg, calls[..|calls| - 1]), cfg, calls[|calls| - 1])
  }

  ghost predicate EpochOk(e: Epoch, cfg: Config) {
    && Inv(e.b, cfg)
    && (e.b.started ==> e.b.next == Plus(e.first, e.position))
    && (!e.b.started ==> e.position == 0 && e.plays == [])
    && (forall k | k in e.b.queue :: Packet(k, e.b.queue[k]) in e.pushed)
    && (forall i | 0 <= i < |e.plays| ::
          e.plays[i].position < e.position
          && Packet(Plus(e.first, e.plays[i].position), e.plays[i].payload) in e.pushed)
    && (forall i, j | 0 <= i < j < |e.plays| :: e.plays[i].position < e.plays[j].position)
  }

  /** What is queued after a push was queued before or has just been pushed. */
  lemma PushQueues(b: Buffer, cfg: Config, key: u32, payload: Payload, at: nat)
    ensures var q := AfterPush(b, cfg, key, payload, at).queue;
      forall k | k in q :: (k == key && q[k] == payload) || (k in b.queue && q[k] == b.queue[k])
    ensures var a := AfterPush(b, cfg, key, payload, at);
      a.started && a.next == if b.started then b.next else key
  {
  }

  lemma EpochPushKeeps(e: Epoch, cfg: Config, key: u32, payload: Payload, at: nat)
    requires EpochOk(e, cfg)
    ensures EpochOk(EpochStep(e, cfg, Pushing(key, payload, at)), cfg)
  {
    PushKeeps(e.b, cfg, key, payload, at);
    PushQueues(e.b, cfg, key, payload, at);
  }

  lemma EpochPopKeeps(e: Epoch, cfg: Config)
    requires EpochOk(e, cfg)
    ensures EpochOk(EpochStep(e, cfg, Popping), cfg)
  {
    PopKeeps(e.b, cfg);
    if e.b.started {
      SuccMoves(e.b.next, e.first, e.position);
    }
  }

  lemma EpochStepKeeps(e: Epoch, cfg: Config, c: Call)
    requires EpochOk(e, cfg)
    ensures EpochOk(EpochStep(e, cfg, c), cfg)
  {
    match c
    case Pushing(key, payload, at) => EpochPushKeeps(e, cfg, key, payload, at);
    case Popping => EpochPopKeeps(e, cfg);
    case Resetting =>
  }

  /** Within a reset epoch, across any number of 32-bit wraps: played positions strictly
      increase, and what is played at a position was pushed under that position's key. */
  lemma {:induction false} PlayoutIsOrdered(cfg: Config, calls: seq<Call>)
    ensures EpochOk(EpochAfter(cfg, calls), cfg)
  {
    if calls != [] {
      PlayoutIsOrdered(cfg, calls[..|calls| - 1]);
      EpochStepKeeps(EpochAfter(cfg, calls[..|calls| - 1]), cfg, calls[|calls| - 1]);
    }
  }

  // ---------------------------------------------------------------- overflow

  /** The queue lies on both sides of the 2^32 wrap. */
  ghost predicate Straddles(b: Buffer) {
    (exists k :: k in b.queue && k < b.next) && (exists k :: k in b.queue && k >= b.next)
  }

  ghost predicate SeriallyOldest(b: Buffer, key: u32) {
    key in b.queue && forall k | k in b.queue :: Ahead(key, b.next) <= Ahead(k, b.next)
  }

  lemma AheadCases(key: u32, next: u32)
    ensures Ahead(key, next) == if key >= next then key - next else key - next + U32
  {
  }

  /** Overflow is meant to drop the oldest entry.  It drops the smallest raw key, which is
      the oldest one exactly when the queue does not straddle the wrap. */
  lemma OverflowDropsOldestIff(b: Buffer, cfg: Config)
    requires |b.queue| > 0
    ensures SeriallyOldest(b, MinKey(b.queue)) <==> !Straddles(b)
  {
    var least := MinKey(b.queue);
    AheadCases(least, b.next);
    if Straddles(b) {
      var k :| k in b.queue && k >= b.next;
      var l :| l in b.queue && l < b.next;
      assert least <= l;
      AheadCases(k, b.next);
      assert Ahead(k, b.next) < Ahead(least, b.next);
    } else {
      forall k | k in b.queue
        ensures Ahead(least, b.next) <= Ahead(k, b.next)
      {
        AheadCases(k, b.next);
      }
    }
  }

  /** The keys of a stream that starts just before the wrap, and the pushes up to n of them. */
  function WrapKey(i: nat): u32 {
    Plus(U32 - 1, i)
  }

  function WrapPushes(n: nat, payload: Payload): (calls: seq<Call>)
    ensures |calls| == n
  {
    if n == 0 then [] else WrapPushes(n - 1, payload) + [Pushing(WrapKey(n - 1), payload, 0)]
  }

  ghost predicate HoldsWrapKeys(b: Buffer, n: nat) {
    && b.started && b.next == U32 - 1
    && (forall i: nat | i < n :: WrapKey(i) in b.queue)
    && (forall k | k in b.queue :: Ahead(k, U32 - 1) < n)
    && |b.queue| == n
  }

  lemma WrapKeyFacts(i: nat)
    requires i < HALF
    ensures Ahead(WrapKey(i), U32 - 1) == i
    ensures WrapKey(i) == if i == 0 then U32 - 1 else i - 1
  {
  }

  lemma PushWrapKey(b: Buffer, cfg: Config, payload: Payload, n: nat)
    requires 0 < n < cfg.MaxEntries() <= HALF && HoldsWrapKeys(b, n)
    ensures HoldsWrapKeys(AfterPush(b, cfg, WrapKey(n), payload, 0), n + 1)
  {
    WrapKeyFacts(n);
    AddSize(b.queue, WrapKey(n), payload);
  }

  lemma {:induction false} WrapFills(cfg: Config, payload: Payload, n: nat)
    requires 0 < n <= cfg.MaxEntries() <= HALF
    ensures HoldsWrapKeys(ApplyAll(NewBuffer(cfg), cfg, WrapPushes(n, payload)), n)
  {
    var calls := WrapPushes(n, payload);
    assert calls[..n - 1] == WrapPushes(n - 1, payload);
    if n == 1 {
      var b := AfterPush(NewBuffer(cfg), cfg, U32 - 1, payload, 0);
      assert b.queue == map[U32 - 1 := payload];
      WrapKeyFacts(0);
    } else {
      WrapFills(cfg, payload, n - 1);
      PushWrapKey(ApplyAll(NewBuffer(cfg), cfg, WrapPushes(n - 1, payload)), cfg, payload, n - 1);
    }
  }

  /** A run that shows it, for every configuration: a stream that starts one packet before
      the wrap and fills the buffer loses its second packet and keeps its first. */
  lemma OverflowKeepsTheOldest(cfg: Config, payload: Payload) returns (calls: seq<Call>)
    ensures var n := |calls| - 1;
      && n >= 0
      && var before, after := ApplyAll(NewBuffer(cfg), cfg, calls[..n]), ApplyAll(NewBuffer(cfg), cfg, calls);
         && Straddles(before) && SeriallyOldest(before, U32 - 1)
         && U32 - 1 in after.queue && 0 in before.queue && 0 !in after.queue
         && after.stats.overflow == before.stats.overflow + 1
  {
    var n := cfg.MaxEntries();
    calls := WrapPushes(n + 1, payload);
    assert calls[..n] == WrapPushes(n, payload);
    WrapFills(cfg, payload, n);
    var before := ApplyAll(NewBuffer(cfg), cfg, calls[..n]);
    WrapKeyFacts(0);
    WrapKeyFacts(1);
    WrapKeyFacts(n);
    assert WrapKey(0) in before.queue && WrapKey(1) in before.queue;
    MinUnique(before.queue, 0, MinKey(before.queue));
  }

  // ---------------------------------------------------------------- the class

  class JitterBuffer {
    const cfg: Config
    var queue: map<u32, Payload>
    var started: bool
    var nextSeq: u32
    var targetMs: int
    var jitterEstimate: real
    var prevArrivalMs: nat
    var havePrevArrival: bool
    var stats: Stats

    ghost function View(): Buffer
      reads this
    {
      Buffer(queue, started, nextSeq, Pace(targetMs, jitterEstimate, prevArrivalMs, havePrevArrival), stats)
    }

    constructor (cfg: Config)
      ensures View() == NewBuffer(cfg) && this.cfg == cfg
    {
      this.cfg := cfg;
      queue, started, nextSeq := map[], false, 0;
      targetMs, jitterEstimate, prevArrivalMs, havePrevArrival := cfg.targetMs, 0.0, 0, false;
      stats := NO_STATS;
    }

    method Reset()
      modifies this
      ensures View() == NewBuffer(cfg)
    {
      queue, started, nextSeq := map[], false, 0;
      targetMs, jitterEstimate, prevArrivalMs, havePrevArrival := cfg.targetMs, 0.0, 0, false;
      stats := NO_STATS;
    }

    method AdaptTo(arrivalMs: nat)
      modifies this`targetMs, this`jitterEstimate, this`prevArrivalMs, this`havePrevArrival
      ensures View().pace == Adapt(old(View()).pace, cfg, arrivalMs)
    {
      if havePrevArrival {
        var delta := Abs(((arrivalMs - prevArrivalMs) % U64) as real - FRAME_MS as real);
        jitterEstimate := jitterEstimate + (delta - jitterEstimate) / 16.0;
      }
      prevArrivalMs := arrivalMs;
      havePrevArrival := true;
      if !cfg.adaptive {
        return;
      }
      var want := (Ceil(jitterEstimate * 3.0) % U32 + cfg.minMs) % U32;
      var clamped := Clamp(want, cfg.minMs, cfg.maxMs);
      if clamped > targetMs {
        targetMs := clamped;
      } else if clamped + FRAME_MS < targetMs {
        targetMs := targetMs - FRAME_MS;
      }
    }

    method Push(key: u32, payload: Payload, arrivalMs: nat)
      modifies this
      ensures View() == AfterPush(old(View()), cfg, key, payload, arrivalMs)
    {
      stats := stats.(pushed := stats.pushed + 1);
      AdaptTo(arrivalMs);
      if !started {
        started := true;
        nextSeq := key;
      }
      ghost var a := View();
      assert a == Arrived(old(View()), cfg, key, arrivalMs);
      var age := (key - nextSeq) % U32;
      assert a == View();
      if age >= HALF {
        stats := stats.(tooLate := stats.tooLate + 1);
        return;
      }
      if key in queue {
        stats := stats.(duplicates := stats.duplicates + 1);
        return;
      }
      if OutOfOrder(queue, key) {
        stats := stats.(reordered := stats.reordered + 1);
      }
      assert View() == Noted(a, key);
      if |queue| >= cfg.MaxEntries() {
        DropFirst();
      }
      queue := queue[key := payload];
    }

    method DropFirst()
      requires |queue| > 0
      modifies this`queue, this`stats
      ensures View() == old(View()).(queue := Drop(old(queue), MinKey(old(queue))),
                                     stats := old(stats).(overflow := old(stats).overflow + 1))
    {
      var first := FirstKey();
      MinUnique(queue, first, MinKey(queue));
      queue := Drop(queue, first);
      stats := stats.(overflow := stats.overflow + 1);
    }

    /** The first key of the ordered map. */
    method FirstKey() returns (first: u32)
      requires |queue| > 0
      ensures IsMin(first, queue)
    {
      var rest := queue.Keys;
      assert rest != {};
      first :| first in rest;
      rest := rest - {first};
      while rest != {}
        invariant first in queue && rest <= queue.Keys
        invariant forall k | k in queue && k !in rest :: first <= k
        decreases rest
      {
        var k :| k in rest;
        if k < first {
          first := k;
        }
        rest := rest - {k};
      }
    }

    /** One frame of playout; `decodes` is the decoder's verdict on the payload it is given.
        A buffer of another size is filled with silence and takes nothing. */
    method Pop(samples: nat, decodes: bool) returns (out: Output, audible: bool)
      modifies this
      ensures View() == if samples == FRAME_SAMPLES then AfterPop(old(View())) else old(View())
      ensures out == if samples == FRAME_SAMPLES then Popped(old(View())) else Silence
      ensures audible == (out.Played? && decodes)
    {
      if !started || samples != FRAME_SAMPLES {
        return Silence, false;
      }
      if nextSeq !in queue {
        var overdue := |queue| > 0 && |queue| * FRAME_MS > targetMs;
        stats := stats.(concealed := stats.concealed + 1);
        if overdue || |queue| > 0 {
          nextSeq := (nextSeq + 1) % U32;
        }
        return Concealed, false;
      }
      out, audible := Played(queue[nextSeq]), decodes;
      queue := Drop(queue, nextSeq);
      nextSeq := (nextSeq + 1) % U32;
      stats := stats.(popped := stats.popped + 1);
    }

    /** Ready means that what can still be played without another arrival lasts at least
        as long as the prefill. */
    method IsReady() returns (ready: bool)
      ensures ready == Ready(View(), cfg)
      ensures Inv(View(), cfg) && started ==>
        forall n: nat | Within(View(), n) :: ready <==> PlaysIn(View(), n) * 20 >= cfg.prefillMs
    {
      ready := started && |queue| * FRAME_MS >= cfg.prefillMs;
      if Inv(View(), cfg) && started {
        forall n: nat | Within(View(), n)
          ensures ready <==> PlaysIn(View(), n) * 20 >= cfg.prefillMs
        {
          ReadyIff(View(), cfg, n);
        }
      }
    }
  }

  lemma MinUnique(queue: map<u32, Payload>, a: u32, b: u32)
    requires IsMin(a, queue) && IsMin(b, queue)
    ensures a == b
  {
  }
}
