/** The ring shared by the service and the driver: SmartMicDriverLink::write publishes
    (windows/audio-service/platform/windows/smartmic_driver_link.cpp), CSmartMicRing::Read
    drains (windows/driver/ring.cpp).  Indices are monotonic and taken not to reach 2^64;
    the producer's guard is nevertheless 64-bit unsigned arithmetic, because there the wrap
    decides what happens after a starve. */
module DriverRings {
  import opened Basics
  import opened Slots

  const FRAMES: nat := 8192
  const MASK: nat := 8191
  const PRODUCER_TIMEOUT: nat := 2_500_000

  type Sample = int

  /** The shared section, with two histories: every frame ever published, by logical index,
      and the logical indices of the real frames delivered, in order. */
  datatype Shared = Shared(
    payload: seq<Sample>, write: nat, read: nat, heartbeat: nat,
    published: seq<Sample>, delivered: seq<nat>)

  // ---------------------------------------------------------------- steps on values

  function Used(s: Shared): nat {
    (s.write - s.read) % U64
  }

  /** The producer's guard, exactly as it is evaluated. */
  predicate Admits(s: Shared, n: nat) {
    (Used(s) + n) % U64 <= FRAMES
  }

  function Publish(s: Shared, frames: seq<Sample>, now: nat): Shared
    requires |s.payload| == FRAMES
  {
    if Admits(s, |frames|)
    then s.(payload := Put(s.payload, s.write, frames), write := s.write + |frames|,
            published := s.published + frames, heartbeat := now)
    else s.(heartbeat := now)
  }

  predicate Alive(s: Shared, now: nat) {
    s.heartbeat != 0 && now >= s.heartbeat && now - s.heartbeat < PRODUCER_TIMEOUT
  }

  /** Where the next read starts: past whatever the producer has lapped. */
  function Start(s: Shared): nat {
    if s.write > s.read + FRAMES then s.write - FRAMES else s.read
  }

  function Readable(s: Shared): nat {
    if s.write >= Start(s) then s.write - Start(s) else 0
  }

  function Real(s: Shared, count: nat): nat {
    if count < Readable(s) then count else Readable(s)
  }

  function Silence(n: nat): seq<Sample> {
    seq(n, _ => 0)
  }

  function Indices(from: nat, n: nat): seq<nat> {
    seq(n, i requires 0 <= i < n => from + i)
  }

  function Drained(s: Shared, count: nat, now: nat): seq<Sample>
    requires |s.payload| == FRAMES
  {
    if !Alive(s, now) then Silence(count)
    else Window(s.payload, Start(s), Start(s) + Real(s, count)) + Silence(count - Real(s, count))
  }

  function AfterDrain(s: Shared, count: nat, now: nat): Shared {
    if count == 0 || !Alive(s, now) then s
    else s.(read := Start(s) + count, delivered := s.delivered + Indices(Start(s), Real(s, count)))
  }

  function Reopen(s: Shared, open: bool): Shared {
    if open then s.(read := s.write) else s
  }

  // ---------------------------------------------------------------- honest runs

  datatype Step = Write(frames: seq<Sample>, now: nat) | Read(count: nat, now: nat) | SetOpen(open: bool)

  function Take(s: Shared, step: Step): (t: Shared)
    requires |s.payload| == FRAMES
    ensures |t.payload| == FRAMES
  {
    match step
    case Write(frames, now) => Publish(s, frames, now)
    case Read(count, now) => AfterDrain(s, count, now)
    case SetOpen(open) => Reopen(s, open)
  }

  function TakeAll(s: Shared, steps: seq<Step>): (t: Shared)
    requires |s.payload| == FRAMES
    ensures |t.payload| == FRAMES
  {
    if steps == [] then s else Take(TakeAll(s, steps[..|steps| - 1]), steps[|steps| - 1])
  }

  function Blank(): Shared {
    Shared(Silence(FRAMES), 0, 0, 0, [], [])
  }

  /** A write that passes the guard fits the payload. A longer one passes only when a starved
      reader is far enough ahead, and would then copy past the payload's end. */
  predicate Fits(s: Shared, n: nat) {
    Admits(s, n) ==> n <= FRAMES
  }

  /** Admitted writes fit the payload, and the read index stays clear of 2^64. */
  predicate Honest(s: Shared, step: Step) {
    && (step.Write? ==> Fits(s, |step.frames|))
    && s.read + FRAMES < U64
  }

  ghost predicate AllHonest(s: Shared, steps: seq<Step>)
    requires |s.payload| == FRAMES
  {
    forall i | 0 <= i < |steps| :: Honest(TakeAll(s, steps[..i]), steps[i])
  }

  function Base(write: nat): nat {
    if write > FRAMES then write - FRAMES else 0
  }

  ghost predicate Increasing(indices: seq<nat>) {
    forall i, j | 0 <= i < j < |indices| :: indices[i] < indices[j]
  }

  ghost predicate Faithful(s: Shared) {
    && |s.payload| == FRAMES && s.write == |s.published|
    // An honest producer never laps the reader.
    && s.write <= s.read + FRAMES
    // The slots hold the newest published frames.
    && Window(s.payload, Base(s.write), s.write) == s.published[Base(s.write)..]
    // Real frames are delivered at most once and in order, after they were published.
    && Increasing(s.delivered)
    && (forall i | 0 <= i < |s.delivered| :: s.delivered[i] < s.write && s.delivered[i] < s.read)
  }

  /** The guard admits a write exactly when it leaves at most a full ring readable and, if
      a starved reader is ahead, reaches up to it. */
  lemma GuardMeaning(s: Shared, n: nat)
    requires s.write <= s.read + FRAMES && s.read + FRAMES < U64 && n <= FRAMES
    ensures Admits(s, n) <==> s.read <= s.write + n <= s.read + 8192
  {
    if s.write >= s.read {
      ModUnique(s.write - s.read, 0, s.write - s.read, U64);
      ModUnique(Used(s) + n, 0, Used(s) + n, U64);
    } else {
      var k := s.read - s.write;
      ModUnique(s.write - s.read, -1, U64 - k, U64);
      if n >= k {
        ModUnique(Used(s) + n, 1, n - k, U64);
      } else {
        ModUnique(Used(s) + n, 0, U64 - k + n, U64);
      }
    }
  }

  /** The newest frames stay the window's when more are put behind them. */
  lemma NewestPublished(payload: seq<Sample>, published: seq<Sample>, frames: seq<Sample>)
    requires |payload| == FRAMES && |frames| <= FRAMES
    requires Window(payload, Base(|published|), |published|) == published[Base(|published|)..]
    ensures var all := published + frames;
      Window(Put(payload, |published|, frames), Base(|all|), |all|) == all[Base(|all|)..]
  {
    var write, all := |published|, published + frames;
    var low := Base(|all|);
    WindowSplit(payload, Base(write), low, write);
    assert Window(payload, low, write) == published[low..];
    WindowAfterPut(payload, low, write, frames);
    assert all[low..] == published[low..] + frames;
  }

  lemma PublishKeeps(s: Shared, frames: seq<Sample>, now: nat)
    requires Faithful(s) && Honest(s, Write(frames, now))
    ensures Faithful(Publish(s, frames, now))
  {
    if Admits(s, |frames|) {
      GuardMeaning(s, |frames|);
      NewestPublished(s.payload, s.published, frames);
    }
  }

  lemma DrainKeeps(s: Shared, count: nat, now: nat)
    requires Faithful(s)
    ensures Faithful(AfterDrain(s, count, now))
  {
  }

  lemma {:induction false} EveryRunFaithful(steps: seq<Step>)
    requires AllHonest(Blank(), steps)
    ensures Faithful(TakeAll(Blank(), steps))
  {
    if steps != [] {
      var front, last := steps[..|steps| - 1], steps[|steps| - 1];
      forall i | 0 <= i < |front|
        ensures Honest(TakeAll(Blank(), front[..i]), front[i])
      {
        assert front[..i] == steps[..i];
      }
      EveryRunFaithful(front);
      var s := TakeAll(Blank(), front);
      match last {
        case Write(frames, now) => PublishKeeps(s, frames, now);
        case Read(count, now) => DrainKeeps(s, count, now);
        case SetOpen(_) =>
      }
    }
  }

  /** What a read of a live ring returns: the frames published under the indices it
      records, then silence, exactly `count` in all. */
  lemma ReadReturnsPublished(s: Shared, count: nat, now: nat)
    requires Faithful(s) && Alive(s, now)
    ensures var got := Real(s, count);
      && |Drained(s, count, now)| == count
      && Start(s) == s.read && (got > 0 ==> s.read + got <= s.write)
      && (got > 0 ==> Drained(s, count, now)[..got] == s.published[s.read..s.read + got])
      && Drained(s, count, now)[got..] == Silence(count - got)
  {
    var got := Real(s, count);
    if got > 0 {
      WindowSplit(s.payload, Base(s.write), s.read, s.write);
      WindowSplit(s.payload, s.read, s.read + got, s.write);
    }
  }

  // ---------------------------------------------------------------- after a starve

  /** A write after a starve that left the reader `k` frames ahead: it is published exactly
      when it is at least `k` frames long, and then leaves the rest readable. */
  lemma StarveBoundary(s: Shared, frames: seq<Sample>, now: nat)
    requires |s.payload| == FRAMES && s.write < s.read && s.read + FRAMES < U64 && |frames| <= FRAMES
    ensures var k, n, t := s.read - s.write, |frames|, Publish(s, frames, now);
      && (n > 0 ==> (n >= k <==> t.write == s.write + n))
      && (n >= k ==> Readable(t) == n - k && t.published == s.published + frames)
      && (n < k ==> t == s.(heartbeat := now))
  {
    GuardMeaning(s, |frames|);
  }

  predicate AtMost(step: Step, n: nat) {
    (step.Write? ==> |step.frames| <= n) && (step.SetOpen? ==> !step.open)
  }

  /** Recovery is not unconditional: once the reader is further ahead than any write is
      long, every later write is refused until the stream is opened again. */
  lemma {:induction false} StarvedForGood(s: Shared, steps: seq<Step>, n: nat)
    requires |s.payload| == FRAMES && n <= FRAMES
    requires s.write + n < s.read
    requires AllHonest(s, steps)
    requires forall i | 0 <= i < |steps| :: AtMost(steps[i], n)
    ensures var t := TakeAll(s, steps);
      t.write == s.write && t.published == s.published && t.read >= s.read && t.delivered == s.delivered
  {
    if steps != [] {
      var front, last := steps[..|steps| - 1], steps[|steps| - 1];
      forall i | 0 <= i < |front|
        ensures Honest(TakeAll(s, front[..i]), front[i])
      {
        assert front[..i] == steps[..i];
      }
      StarvedForGood(s, front, n);
      var t := TakeAll(s, front);
      if last.Write? {
        StarveBoundary(t, last.frames, last.now);
      } else if last.Read? {
        assert t.delivered + [] == t.delivered;
      }
    }
  }

  /** And that happens: a reader that asks for more than twice what was written takes an
      honest ring from its beginning to where writes of that length never get in again. */
  lemma StarveIsReachable(frames: seq<Sample>, count: nat, now: nat, later: seq<Step>)
    requires |frames| <= FRAMES && count > 2 * |frames| && now > 0
    ensures var steps := [Write(frames, now), Read(count, now)];
      var s := TakeAll(Blank(), steps);
      && AllHonest(Blank(), steps) && s.published == frames && s.write + |frames| < s.read
      && (AllHonest(s, later) && (forall i | 0 <= i < |later| :: AtMost(later[i], |frames|)) ==>
            TakeAll(s, later).published == frames)
  {
    var steps := [Write(frames, now), Read(count, now)];
    assert steps[..0] == [] && steps[..1] == [Write(frames, now)] && steps[..1][..0] == [];
    GuardMeaning(Blank(), |frames|);
    var written := Publish(Blank(), frames, now);
    assert TakeAll(Blank(), steps[..1]) == written && [] + frames == frames;
    var s := AfterDrain(written, count, now);
    assert TakeAll(Blank(), steps) == s;
    if AllHonest(s, later) && forall i | 0 <= i < |later| :: AtMost(later[i], |frames|) {
      StarvedForGood(s, later, |frames|);
    }
  }

  /** Opening the stream recovers at once, whatever was skipped. */
  lemma ReopenRecovers(s: Shared, frames: seq<Sample>, now: nat)
    requires |s.payload| == FRAMES && s.write + FRAMES < U64 && |frames| <= FRAMES
    ensures var t := Publish(Reopen(s, true), frames, now);
      t.published == s.published + frames && Readable(t) == |frames|
  {
    GuardMeaning(Reopen(s, true), |frames|);
  }

  // ---------------------------------------------------------------- the section itself

  function Pcm16(v: real): int {
    var clamped := if v < -0.999 then -0.999 else if v > 0.999 then 0.999 else v;
    var scaled := clamped * 32767.0;
    if scaled >= 0.0 then (scaled + 0.5).Floor else -((0.5 - scaled).Floor)
  }

  function Converted(input: seq<real>): (s: seq<Sample>)
    ensures |s| == |input|
  {
    seq(|input|, i requires 0 <= i < |input| => Pcm16(input[i]))
  }

  class SharedSection {
    const payload: array<Sample>
    var writeIndex: nat
    var readIndex: nat
    var producerHeartbeat: nat
    var streamOpen: bool
    var underruns: nat
    var overruns: nat
    var framesDelivered: nat
    ghost var published: seq<Sample>
    ghost var delivered: seq<nat>

    /** Nothing is assumed about the indices: user mode owns `writeIndex`. */
    ghost predicate Valid()
      reads this
    {
      payload.Length == FRAMES
    }

    ghost function View(): Shared
      reads this, payload
    {
      Shared(payload[..], writeIndex, readIndex, producerHeartbeat, published, delivered)
    }

    constructor ()
      ensures Valid() && fresh(payload) && View() == Blank()
    {
      payload := new Sample[FRAMES](_ => 0);
      writeIndex, readIndex, producerHeartbeat := 0, 0, 0;
      streamOpen, underruns, overruns, framesDelivered := false, 0, 0, 0;
      published, delivered := [], [];
    }

    /** Producer: converts, then publishes or, when the driver is not draining, drops. */
    method Write(input: seq<real>, now: nat)
      requires Valid() && Fits(View(), |input|)
      modifies this, payload
      ensures Valid() && View() == Publish(old(View()), Converted(input), now)
      ensures overruns == old(overruns) + (if Admits(old(View()), |input|) then 0 else |input|)
    {
      var scratch: seq<Sample> := [];
      for i := 0 to |input|
        invariant scratch == Converted(input)[..i]
      {
        scratch := scratch + [Pcm16(input[i])];
      }
      var used := (writeIndex - readIndex) % U64;
      if (used + |input|) % U64 > FRAMES {
        overruns := overruns + |input|;
        producerHeartbeat := now;
        return;
      }
      CopyIn(writeIndex, scratch);
      writeIndex := writeIndex + |input|;
      producerHeartbeat := now;
      published := published + scratch;
    }

    method CopyIn(at: nat, frames: seq<Sample>)
      requires Valid() && |frames| <= FRAMES
      modifies payload
      ensures payload[..] == Put(old(payload[..]), at, frames)
    {
      MaskFrames(at);
      var offset := And(at, MASK);
      var first := if |frames| < FRAMES - offset then |frames| else FRAMES - offset;
      forall i | 0 <= i < first {
        payload[offset + i] := frames[i];
      }
      forall i | 0 <= i < |frames| - first {
        payload[i] := frames[first + i];
      }
      PutInTwo(old(payload[..]), payload[..], at, frames, offset);
    }

    /** Consumer: exactly `count` frames for any indices whatever, a real prefix and then
        silence; the read index advances past the silence too. */
    method Read(count: nat, now: nat) returns (dst: seq<Sample>, got: nat)
      requires Valid()
      modifies this
      ensures Valid() && View() == AfterDrain(old(View()), count, now)
      ensures dst == Drained(old(View()), count, now) && |dst| == count
      ensures got == if Alive(old(View()), now) then Real(old(View()), count) else 0
      ensures underruns == old(underruns) + count - got
    {
      if count == 0 {
        return [], 0;
      }
      var alive := producerHeartbeat != 0 && now >= producerHeartbeat && now - producerHeartbeat < PRODUCER_TIMEOUT;
      if !alive {
        underruns := underruns + count;
        return Silence(count), 0;
      }
      var r := readIndex;
      var available := 0;
      if writeIndex >= r {
        available := writeIndex - r;
        if available > FRAMES {
          var skipped := available - FRAMES;
          r := r + skipped;
          available := FRAMES;
          overruns := overruns + skipped;
        }
      }
      got := if count < available then count else available;
      assert r == Start(View()) && got == Real(View(), count);
      dst := CopyOut(r, got);
      dst := dst + Silence(count - got);
      underruns := underruns + (count - got);
      readIndex := r + count;
      framesDelivered := framesDelivered + count;
      delivered := delivered + Indices(r, got);
    }

    method CopyOut(at: nat, n: nat) returns (dst: seq<Sample>)
      requires Valid() && n <= FRAMES
      ensures dst == Window(payload[..], at, at + n)
    {
      MaskFrames(at);
      var offset := And(at, MASK);
      var first := if n < FRAMES - offset then n else FRAMES - offset;
      dst := payload[offset..offset + first];
      if n > first {
        dst := dst + payload[..n - first];
      }
      WindowInTwo(payload[..], at, n, offset);
    }

    method SetStreamOpen(open: bool)
      modifies this
      ensures View() == Reopen(old(View()), open) && streamOpen == open
    {
      streamOpen := open;
      if open {
        readIndex := writeIndex;
      }
    }
  }

  lemma MaskFrames(at: nat)
    ensures And(at, MASK) == at % FRAMES
  {
    assert IsPow2(2) && IsPow2(4) && IsPow2(8) && IsPow2(16) && IsPow2(32) && IsPow2(64);
    assert IsPow2(128) && IsPow2(256) && IsPow2(512) && IsPow2(1024) && IsPow2(2048) && IsPow2(4096);
    MaskIsMod(at, FRAMES);
  }
}
