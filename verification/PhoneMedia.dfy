/** The two ends of a talk spurt (shared/media/src/phone_media_source.cpp): the phone's
    packetiser and the router's phone input on top of the jitter buffer.  Encoding and
    decoding are left abstract; a payload stands for its frame. */
module PhoneMedia {
  import opened Basics
  import opened JitterBuffers

  /** A media payload as it arrives; `Malformed` fails the header check. */
  datatype Media =
    | Media(marker: bool, pttActive: bool, key: u32, timestamp: u32, payload: Payload)
    | Malformed

  // ---------------------------------------------------------------- sender

  datatype Sender = Sender(next: u32, timestamp: u32, marker: bool)

  function PackOne(s: Sender, payload: Payload, samples: nat, pttActive: bool): (Sender, Media) {
    (Sender(Succ(s.next), Plus(s.timestamp, samples), false),
     Media.Media(s.marker, pttActive, s.next, s.timestamp, payload))
  }

  function PackAll(s: Sender, payloads: seq<Payload>, samples: nat): (packets: seq<Media>)
    ensures |packets| == |payloads|
    decreases |payloads|
  {
    if payloads == [] then []
    else
      var (s', m) := PackOne(s, payloads[0], samples, true);
      [m] + PackAll(s', payloads[1..], samples)
  }

  /** A spurt's packets carry consecutive numbers on the 32-bit circle, and only the first
      one after a stream reset is marked. */
  lemma {:induction false} PackedAt(s: Sender, payloads: seq<Payload>, samples: nat, i: nat)
    requires i < |payloads|
    ensures var m := PackAll(s, payloads, samples)[i];
      && m.Media? && m.key == Plus(s.next, i) && m.payload == payloads[i] && m.pttActive
      && m.marker == (i == 0 && s.marker)
      && m.timestamp == Plus(s.timestamp, i * samples)
    decreases i
  {
    if i > 0 {
      var (s', m) := PackOne(s, payloads[0], samples, true);
      PackedAt(s', payloads[1..], samples, i - 1);
      PlusPlus(s.next, 1, i - 1);
      LaterStamp(s.timestamp, samples, i);
    }
  }

  lemma LaterStamp(timestamp: u32, samples: nat, i: nat)
    requires i > 0
    ensures Plus(Plus(timestamp, samples), (i - 1) * samples) == Plus(timestamp, i * samples)
  {
    assert samples + (i - 1) * samples == i * samples;
    PlusPlus(timestamp, samples, (i - 1) * samples);
  }

  lemma PlusPlus(key: u32, a: nat, b: nat)
    ensures Plus(Plus(key, a), b) == Plus(key, a + b)
  {
  }

  // ---------------------------------------------------------------- receiver

  datatype Source = Source(running: bool, buffer: Buffer, malformed: nat)

  ghost function OnMedia(s: Source, cfg: Config, m: Media, now: nat): Source {
    if m.Malformed? || m.payload == [] then s.(malformed := s.malformed + 1)
    else s.(buffer := AfterPush(if m.marker then NewBuffer(cfg) else s.buffer, cfg, m.key, m.payload, now))
  }

  function AfterRead(s: Source): Source {
    s.(buffer := AfterPop(s.buffer))
  }

  /** What fails the header check or carries nothing is counted and never reaches the buffer,
      marked or not; what is left changes the buffer as a push, into an empty one if marked. */
  lemma MediaIsCounted(s: Source, cfg: Config, m: Media, now: nat)
    ensures var t := OnMedia(s, cfg, m, now);
      && t.running == s.running && s.malformed <= t.malformed <= s.malformed + 1
      && (t.malformed > s.malformed <==> m.Malformed? || |m.payload| == 0)
      && (t.malformed > s.malformed ==> t.buffer == s.buffer)
      && (t.malformed == s.malformed ==> t.buffer.stats.pushed == (if m.marker then 0 else s.buffer.stats.pushed) + 1)
  {
  }

  ghost function OnAll(s: Source, cfg: Config, packets: seq<Media>, order: seq<nat>, clock: nat -> nat): Source
    requires forall i | 0 <= i < |order| :: order[i] < |packets|
  {
    if order == [] then s
    else OnMedia(OnAll(s, cfg, packets, order[..|order| - 1], clock), cfg, packets[order[|order| - 1]], clock(|order|))
  }

  /** The queue that holds exactly the received packets of a spurt. */
  ghost predicate Holds(b: Buffer, start: u32, payloads: seq<Payload>, received: set<nat>) {
    && b.started && b.next == start
    && (forall i | i in received :: i < |payloads| && Plus(start, i) in b.queue && b.queue[Plus(start, i)] == payloads[i])
    && (forall k | k in b.queue :: Ahead(k, start) in received)
  }

  function Set(order: seq<nat>): set<nat> {
    set i | i in order
  }

  lemma KeyOfAhead(key: u32, start: u32)
    ensures Plus(start, Ahead(key, start)) == key
  {
  }

  lemma HoldsSize(b: Buffer, start: u32, payloads: seq<Payload>, received: set<nat>)
    requires Holds(b, start, payloads, received) && |payloads| < U32
    ensures |b.queue| <= |received|
  {
    var image := set i | i in received :: Plus(start, i);
    forall k | k in b.queue
      ensures k in image
    {
      KeyOfAhead(k, start);
      assert Ahead(k, start) in received;
    }
    assert b.queue.Keys <= image;
    SubsetSize(b.queue.Keys, image);
    ImageSize(received, start);
  }

  lemma {:induction false} ImageSize(received: set<nat>, start: u32)
    ensures |set i | i in received :: Plus(start, i)| <= |received|
    decreases |received|
  {
    if received != {} {
      var n :| n in received;
      var rest := received - {n};
      ImageSize(rest, start);
      var image, smaller := set i | i in received :: Plus(start, i), set i | i in rest :: Plus(start, i);
      assert image == smaller + {Plus(start, n)};
    }
  }

  /** A packet that is not late and finds room is inserted unless it is queued already. */
  lemma PushShape(b: Buffer, cfg: Config, key: u32, payload: Payload, now: nat)
    requires b.started && !Late(key, b.next)
    requires key in b.queue || |b.queue| < cfg.MaxEntries()
    ensures var after := AfterPush(b, cfg, key, payload, now);
      && after.started && after.next == b.next
      && after.queue == if key in b.queue then b.queue else b.queue[key := payload]
  {
  }

  lemma HoldsInsert(b: Buffer, after: Buffer, start: u32, payloads: seq<Payload>, received: set<nat>, i: nat)
    requires Holds(b, start, payloads, received) && i < |payloads| <= HALF
    requires after.started && after.next == start
    requires after.queue == if Plus(start, i) in b.queue then b.queue else b.queue[Plus(start, i) := payloads[i]]
    ensures Holds(after, start, payloads, received + {i})
  {
    AheadOfPlus(start, i);
    forall j | j in received
      ensures Plus(start, j) == Plus(start, i) ==> j == i
    {
      AheadOfPlus(start, j);
    }
  }

  /** Receiving one more packet of the spurt, new or duplicated. */
  lemma ReceiveOne(b: Buffer, cfg: Config, start: u32, payloads: seq<Payload>, received: set<nat>, i: nat, now: nat)
    requires Holds(b, start, payloads, received) && i < |payloads| <= HALF
    requires i in received || |received| < cfg.MaxEntries()
    ensures Holds(AfterPush(b, cfg, Plus(start, i), payloads[i], now), start, payloads, received + {i})
  {
    AheadOfPlus(start, i);
    HoldsSize(b, start, payloads, received);
    PushShape(b, cfg, Plus(start, i), payloads[i], now);
    HoldsInsert(b, AfterPush(b, cfg, Plus(start, i), payloads[i], now), start, payloads, received, i);
  }

  /** The marked packet starts from an empty buffer. */
  lemma ReceiveFirst(cfg: Config, start: u32, payloads: seq<Payload>, now: nat)
    requires 0 < |payloads| <= HALF
    ensures Holds(AfterPush(NewBuffer(cfg), cfg, start, payloads[0], now), start, payloads, {0})
  {
    var after := AfterPush(NewBuffer(cfg), cfg, start, payloads[0], now);
    PlusZero(start);
    AheadOfPlus(start, 0);
    assert after.started && after.next == start && after.queue == map[start := payloads[0]] by {
      FirstShape(cfg, start, payloads[0], now);
    }
  }

  lemma FirstShape(cfg: Config, key: u32, payload: Payload, now: nat)
    ensures var after := AfterPush(NewBuffer(cfg), cfg, key, payload, now);
      after.started && after.next == key && after.queue == map[key := payload]
  {
    assert cfg.MaxEntries() >= 4;
  }

  /** The marked packet arrives first, the others in any order, duplicated or lost. */
  predicate MarkedFirst(order: seq<nat>, n: nat) {
    |order| > 0 && order[0] == 0 && forall i | 0 < i < |order| :: 0 < order[i] < n
  }

  predicate Spurt(cfg: Config, sender: Sender, payloads: seq<Payload>) {
    && sender.marker && 0 < |payloads| <= HALF && |payloads| <= cfg.maxMs / 20 + 4
    && forall i | 0 <= i < |payloads| :: payloads[i] != []
  }

  /** What receiving packet i of a spurt does to the buffer. */
  lemma SpurtStep(s: Source, cfg: Config, sender: Sender, payloads: seq<Payload>, samples: nat, order: seq<nat>,
    clock: nat -> nat)
    requires Spurt(cfg, sender, payloads) && |order| > 0
    requires forall k | 0 <= k < |order| :: order[k] < |payloads|
    ensures var i := order[|order| - 1];
      var packets := PackAll(sender, payloads, samples);
      OnAll(s, cfg, packets, order, clock).buffer ==
        AfterPush(if i == 0 then NewBuffer(cfg) else OnAll(s, cfg, packets, order[..|order| - 1], clock).buffer,
                  cfg, Plus(sender.next, i), payloads[i], clock(|order|))
  {
    PackedAt(sender, payloads, samples, order[|order| - 1]);
  }

  lemma SetOfLast(order: seq<nat>)
    requires |order| > 0
    ensures Set(order) == Set(order[..|order| - 1]) + {order[|order| - 1]}
  {
    assert order == order[..|order| - 1] + [order[|order| - 1]];
  }

  /** The buffer alone, packet by packet. */
  ghost function Received(cfg: Config, start: u32, payloads: seq<Payload>, order: seq<nat>, clock: nat -> nat): Buffer
    requires forall k | 0 <= k < |order| :: order[k] < |payloads|
  {
    if order == [] then NewBuffer(cfg)
    else
      var i := order[|order| - 1];
      AfterPush(if i == 0 then NewBuffer(cfg) else Received(cfg, start, payloads, order[..|order| - 1], clock),
                cfg, Plus(start, i), payloads[i], clock(|order|))
  }

  lemma {:induction false} OnAllIsReceived(
    s: Source, cfg: Config, sender: Sender, payloads: seq<Payload>, samples: nat, order: seq<nat>, clock: nat -> nat)
    requires Spurt(cfg, sender, payloads) && MarkedFirst(order, |payloads|)
    ensures OnAll(s, cfg, PackAll(sender, payloads, samples), order, clock).buffer
         == Received(cfg, sender.next, payloads, order, clock)
  {
    SpurtStep(s, cfg, sender, payloads, samples, order, clock);
    if |order| > 1 {
      OnAllIsReceived(s, cfg, sender, payloads, samples, order[..|order| - 1], clock);
    } else {
      assert order[0] == 0;
    }
  }

  lemma {:induction false} ReceivedHolds(
    cfg: Config, start: u32, payloads: seq<Payload>, order: seq<nat>, clock: nat -> nat)
    requires 0 < |payloads| <= HALF && |payloads| <= cfg.MaxEntries() && MarkedFirst(order, |payloads|)
    ensures Holds(Received(cfg, start, payloads, order, clock), start, payloads, Set(order))
  {
    if |order| == 1 {
      assert order == [0];
      SetOfLast(order);
      PlusZero(start);
      ReceiveFirst(cfg, start, payloads, clock(1));
    } else {
      ReceivedHolds(cfg, start, payloads, order[..|order| - 1], clock);
      NextHolds(Received(cfg, start, payloads, order[..|order| - 1], clock), cfg, start, payloads, order, clock(|order|));
    }
  }

  lemma PlusZero(key: u32)
    ensures Plus(key, 0) == key
  {
  }

  /** A spurt that fits the buffer, received before any of it is played: the buffer ends up
      holding exactly what arrived, whatever it held before. */
  lemma SpurtReceived(
    s: Source, cfg: Config, sender: Sender, payloads: seq<Payload>, samples: nat, order: seq<nat>,
    clock: nat -> nat)
    requires Spurt(cfg, sender, payloads) && MarkedFirst(order, |payloads|)
    ensures Holds(OnAll(s, cfg, PackAll(sender, payloads, samples), order, clock).buffer, sender.next, payloads, Set(order))
  {
    OnAllIsReceived(s, cfg, sender, payloads, samples, order, clock);
    ReceivedHolds(cfg, sender.next, payloads, order, clock);
  }

  lemma NextHolds(before: Buffer, cfg: Config, start: u32, payloads: seq<Payload>, order: seq<nat>, now: nat)
    requires |payloads| <= HALF && |payloads| <= cfg.MaxEntries() && MarkedFirst(order, |payloads|) && |order| > 1
    requires Holds(before, start, payloads, Set(order[..|order| - 1]))
    ensures var i := order[|order| - 1];
      Holds(AfterPush(before, cfg, Plus(start, i), payloads[i], now), start, payloads, Set(order))
  {
    var front, i := order[..|order| - 1], order[|order| - 1];
    SetOfLast(order);
    RoomLeft(front, |payloads|, i);
    ReceiveOne(before, cfg, start, payloads, Set(front), i, now);
  }

  lemma RoomLeft(order: seq<nat>, n: nat, i: nat)
    requires (forall k | 0 <= k < |order| :: order[k] < n) && i < n
    ensures i in Set(order) || |Set(order)| < n
  {
    if i !in Set(order) {
      BelowSize(Set(order) + {i}, n);
    }
  }

  lemma {:induction false} BelowSize(s: set<nat>, n: nat)
    requires forall k | k in s :: k < n
    ensures |s| <= n
    decreases n
  {
    if n > 0 {
      BelowSize(s - {n - 1}, n - 1);
    } else {
      assert s == {};
    }
  }

  /** Playing a received spurt: pop i returns frame i if its packet arrived and conceals it
      otherwise, up to the last one that arrived. */
  lemma SpurtPlayed(
    s: Source, cfg: Config, sender: Sender, payloads: seq<Payload>, samples: nat, order: seq<nat>,
    clock: nat -> nat, last: nat, i: nat)
    requires Spurt(cfg, sender, payloads) && MarkedFirst(order, |payloads|)
    requires last in order && (forall k | k in order :: k <= last) && i <= last
    ensures var b := OnAll(s, cfg, PackAll(sender, payloads, samples), order, clock).buffer;
      OutputAt(b, i) == if i in order then Played(payloads[i]) else Concealed
  {
    SpurtReceived(s, cfg, sender, payloads, samples, order, clock);
    var b := OnAll(s, cfg, PackAll(sender, payloads, samples), order, clock).buffer;
    AheadOfPlus(sender.next, last);
    AheadOfPlus(sender.next, i);
    assert last in Set(order);
    assert Plus(sender.next, last) in b.queue;
    forall k | k in b.queue
      ensures Ahead(k, b.next) < last + 1
    {
      assert Ahead(k, b.next) in Set(order);
    }
    PlaysInOrder(b, last, i);
  }

  // ---------------------------------------------------------------- filling up

  /** What readiness asks for fits the buffer. */
  predicate Fillable(cfg: Config) {
    cfg.prefillMs <= cfg.MaxEntries() * FRAME_MS
  }

  /** The fewest frames that make a buffer ready. */
  function FramesToFill(cfg: Config): (k: nat)
    ensures k >= 1 && cfg.prefillMs <= k * FRAME_MS
    ensures Fillable(cfg) ==> k <= cfg.MaxEntries() < HALF
  {
    if cfg.prefillMs <= FRAME_MS then 1 else (cfg.prefillMs + FRAME_MS - 1) / FRAME_MS
  }

  function Below(k: nat): (s: set<nat>)
    ensures forall i: nat :: i in s <==> i < k
    ensures |s| == k
  {
    if k == 0 then {} else Below(k - 1) + {k - 1}
  }

  ghost predicate HasKeys(keys: set<u32>, start: u32, k: nat) {
    forall i | i in Below(k) :: Plus(start, i) in keys
  }

  lemma {:induction false} ManyKeys(keys: set<u32>, start: u32, k: nat)
    requires k <= HALF && HasKeys(keys, start, k)
    ensures |keys| >= k
    decreases k
  {
    if k > 0 {
      var last := Plus(start, k - 1);
      forall i | i in Below(k - 1)
        ensures Plus(start, i) in keys - {last}
      {
        DistinctTurns(start, i, k - 1);
      }
      ManyKeys(keys - {last}, start, k - 1);
    }
  }

  /** The first frames of a spurt, all received, make the buffer ready. */
  lemma FilledIsReady(b: Buffer, cfg: Config, start: u32, payloads: seq<Payload>, k: nat)
    requires k <= |payloads| <= HALF && cfg.prefillMs <= k * FRAME_MS
    requires Holds(b, start, payloads, Below(k))
    ensures Ready(b, cfg)
  {
    ManyKeys(b.queue.Keys, start, k);
  }

  /** Receiving them one after another. */
  lemma FillNext(b: Buffer, cfg: Config, start: u32, payloads: seq<Payload>, i: nat, now: nat)
    requires i < |payloads| <= HALF && i < cfg.MaxEntries()
    requires if i == 0 then b == NewBuffer(cfg) else Holds(b, start, payloads, Below(i))
    ensures Holds(AfterPush(b, cfg, Plus(start, i), payloads[i], now), start, payloads, Below(i + 1))
  {
    BelowNext(i);
    if i == 0 {
      PlusZero(start);
      ReceiveFirst(cfg, start, payloads, now);
    } else {
      ReceiveOne(b, cfg, start, payloads, Below(i), i, now);
    }
  }

  /** The same at the source: the i-th frame of the spurt arrives, the first one marked. */
  ghost predicate IsFrame(m: Media, start: u32, payloads: seq<Payload>, i: nat)
    requires i < |payloads|
  {
    m.Media? && m.marker == (i == 0) && m.key == Plus(start, i) && m.payload == payloads[i] != []
  }

  ghost predicate HoldsFirst(s: Source, start: u32, payloads: seq<Payload>, k: nat) {
    k > 0 ==> Holds(s.buffer, start, payloads, Below(k))
  }

  lemma OnFrame(s: Source, cfg: Config, m: Media, now: nat)
    requires m.Media? && m.payload != []
    ensures OnMedia(s, cfg, m, now)
         == s.(buffer := AfterPush(if m.marker then NewBuffer(cfg) else s.buffer, cfg, m.key, m.payload, now))
  {
  }

  lemma SourceFills(s: Source, cfg: Config, m: Media, start: u32, payloads: seq<Payload>, i: nat, now: nat)
    requires i < |payloads| <= HALF && i < cfg.MaxEntries()
    requires IsFrame(m, start, payloads, i) && HoldsFirst(s, start, payloads, i)
    ensures var t := OnMedia(s, cfg, m, now);
      t.running == s.running && HoldsFirst(t, start, payloads, i + 1)
  {
    OnFrame(s, cfg, m, now);
    FillNext(if i == 0 then NewBuffer(cfg) else s.buffer, cfg, start, payloads, i, now);
  }

  /** Frames that all carry the same payload, packed and received one after another. */
  const FRAME: Payload := [0]

  function Frames(n: nat): (s: seq<Payload>)
    ensures |s| == n && forall i | 0 <= i < n :: s[i] == FRAME
  {
    seq(n, _ => FRAME)
  }

  function SenderAfter(s: Sender, k: nat): Sender {
    if k == 0 then s else PackOne(SenderAfter(s, k - 1), FRAME, FRAME_SAMPLES, true).0
  }

  function FrameAt(s: Sender, k: nat): Media {
    PackOne(SenderAfter(s, k), FRAME, FRAME_SAMPLES, true).1
  }

  ghost function SourceAfterFrames(src: Source, cfg: Config, s: Sender, k: nat): Source {
    if k == 0 then src else OnMedia(SourceAfterFrames(src, cfg, s, k - 1), cfg, FrameAt(s, k - 1), 0)
  }

  lemma {:induction false} SenderAfterIs(s: Sender, k: nat)
    ensures SenderAfter(s, k).next == Plus(s.next, k)
    ensures SenderAfter(s, k).marker == (k == 0 && s.marker)
  {
    if k == 0 {
      PlusZero(s.next);
    } else {
      SenderAfterIs(s, k - 1);
      PlusPlus(s.next, k - 1, 1);
    }
  }

  lemma FrameAtIs(s: Sender, n: nat, i: nat)
    requires s.marker && i < n
    ensures IsFrame(FrameAt(s, i), s.next, Frames(n), i)
  {
    SenderAfterIs(s, i);
  }

  lemma FrameIsHeld(src: Source, cfg: Config, s: Sender, n: nat, i: nat)
    requires s.marker && i < n <= cfg.MaxEntries() && HoldsFirst(src, s.next, Frames(n), i)
    ensures var t := OnMedia(src, cfg, FrameAt(s, i), 0);
      HoldsFirst(t, s.next, Frames(n), i + 1) && t.running == src.running
  {
    FrameAtIs(s, n, i);
    SourceFills(src, cfg, FrameAt(s, i), s.next, Frames(n), i, 0);
  }

  lemma {:induction false} FramesAreHeld(src: Source, cfg: Config, s: Sender, n: nat, k: nat)
    requires s.marker && k <= n <= cfg.MaxEntries()
    ensures var t := SourceAfterFrames(src, cfg, s, k);
      HoldsFirst(t, s.next, Frames(n), k) && t.running == src.running
  {
    if k > 0 {
      FramesAreHeld(src, cfg, s, n, k - 1);
      FrameIsHeld(SourceAfterFrames(src, cfg, s, k - 1), cfg, s, n, k - 1);
    }
  }

  /** Enough of them make the source's buffer ready, whatever it held before. */
  lemma FramesFill(src: Source, cfg: Config, s: Sender)
    requires s.marker && Fillable(cfg)
    ensures var t := SourceAfterFrames(src, cfg, s, FramesToFill(cfg));
      Ready(t.buffer, cfg) && t.running == src.running
  {
    var k := FramesToFill(cfg);
    FramesAreHeld(src, cfg, s, k, k);
    FilledIsReady(SourceAfterFrames(src, cfg, s, k).buffer, cfg, s.next, Frames(k), k);
  }

  lemma BelowNext(i: nat)
    ensures Below(i + 1) == Below(i) + {i}
    ensures i == 0 ==> Below(i + 1) == {0}
  {
  }

  // ---------------------------------------------------------------- a spurt while it plays

  /** Packet i of the spurt arrives, a packet of an earlier spurt straggles in, or the router
      reads a frame. */
  datatype SpurtEvent = Arrives(i: nat, now: nat) | Straggles(m: Media, now: nat) | Plays

  /** The buffer's epoch since the marked packet last arrived, and the packets that have
      arrived in it before their turn to be played. */
  datatype Listening = Listening(e: Epoch, inTime: set<nat>)

  ghost function Hear(l: Listening, cfg: Config, start: u32, payloads: seq<Payload>, ev: SpurtEvent): Listening
    requires ev.Arrives? ==> ev.i < |payloads|
    requires ev.Straggles? ==> ev.m.Media?
  {
    match ev
    case Arrives(i, now) =>
      if i == 0 then Listening(EpochStep(NewEpoch(cfg), cfg, Pushing(start, payloads[0], now)), {0})
      else Listening(EpochStep(l.e, cfg, Pushing(Plus(start, i), payloads[i], now)),
                     if l.e.position <= i then l.inTime + {i} else l.inTime)
    case Straggles(m, now) => l.(e := EpochStep(l.e, cfg, Pushing(m.key, m.payload, now)))
    case Plays => l.(e := EpochStep(l.e, cfg, Popping))
  }

  /** An unmarked packet from before the spurt, so near that no position of the spurt is half
      the circle ahead of it. A marked one would begin its own spurt anew. */
  predicate Straggler(m: Media, start: u32, n: nat) {
    m.Media? && !m.marker && m.payload != [] && 0 < Ahead(start, m.key) <= HALF - n
  }

  predicate OfSpurt(events: seq<SpurtEvent>, start: u32, n: nat) {
    forall k | 0 <= k < |events| ::
      && (events[k].Arrives? ==> events[k].i < n)
      && (events[k].Straggles? ==> Straggler(events[k].m, start, n))
  }

  ghost function HearAll(cfg: Config, start: u32, payloads: seq<Payload>, events: seq<SpurtEvent>): Listening
    requires OfSpurt(events, start, |payloads|)
  {
    if events == [] then Listening(NewEpoch(cfg), {})
    else Hear(HearAll(cfg, start, payloads, events[..|events| - 1]), cfg, start, payloads, events[|events| - 1])
  }

  /** The same events at the phone source itself. */
  ghost function SourceAfter(s: Source, cfg: Config, start: u32, packets: seq<Media>, events: seq<SpurtEvent>): Source
    requires OfSpurt(events, start, |packets|)
  {
    if events == [] then s
    else
      var before, ev := SourceAfter(s, cfg, start, packets, events[..|events| - 1]), events[|events| - 1];
      match ev
      case Arrives(i, now) => OnMedia(before, cfg, packets[i], now)
      case Straggles(m, now) => OnMedia(before, cfg, m, now)
      case Plays => AfterRead(before)
  }

  ghost predicate QueueOk(l: Listening, start: u32, payloads: seq<Payload>) {
    forall k | k in l.e.b.queue ::
      var i := Ahead(k, start);
      l.e.position <= i < |payloads| && i in l.inTime && l.e.b.queue[k] == payloads[i]
  }

  ghost predicate PlaysOk(l: Listening, payloads: seq<Payload>) {
    forall j | 0 <= j < |l.e.plays| ::
      l.e.plays[j].position in l.inTime && l.e.plays[j].position < |payloads|
      && l.e.plays[j].payload == payloads[l.e.plays[j].position]
  }

  ghost predicate PlayedAt(plays: seq<Play>, p: nat) {
    exists j :: 0 <= j < |plays| && plays[j].position == p
  }

  /** Nothing that arrived in time has been dropped: it is queued or was played. */
  ghost predicate Complete(l: Listening, start: u32) {
    forall i | i in l.inTime ::
      if i < l.e.position then PlayedAt(l.e.plays, i) else Plus(start, i) in l.e.b.queue
  }

  ghost predicate SpurtOk(l: Listening, cfg: Config, start: u32, payloads: seq<Payload>) {
    && EpochOk(l.e, cfg) && l.e.b.started && l.e.first == start
    && l.e.position <= |payloads| <= HALF
    && (forall i | i in l.inTime :: i < |payloads|)
    && QueueOk(l, start, payloads) && PlaysOk(l, payloads)
    && (l.e.b.stats.overflow == 0 ==> Complete(l, start))
  }

  /** Within a spurt the signed comparison is the comparison of positions. */
  lemma LateMeansPassed(start: u32, i: nat, position: nat)
    requires i < HALF && position <= HALF
    ensures Late(Plus(start, i), Plus(start, position)) <==> i < position
    ensures Ahead(Plus(start, i), start) == i
  {
    PlusWraps(start, i);
    PlusWraps(start, position);
    AheadWraps(Plus(start, i), Plus(start, position));
    AheadWraps(Plus(start, i), start);
  }

  lemma PlusWraps(start: u32, n: nat)
    requires n < U32
    ensures Plus(start, n) == if start + n < U32 then start + n else start + n - U32
  {
  }

  lemma AheadWraps(a: u32, b: u32)
    ensures Ahead(a, b) == if a >= b then a - b else a - b + U32
  {
  }

  lemma FirstHeard(cfg: Config, start: u32, payloads: seq<Payload>, now: nat)
    requires 0 < |payloads| <= HALF
    ensures SpurtOk(Listening(EpochStep(NewEpoch(cfg), cfg, Pushing(start, payloads[0], now)), {0}), cfg, start, payloads)
  {
    EpochStepKeeps(NewEpoch(cfg), cfg, Pushing(start, payloads[0], now));
    FirstShape(cfg, start, payloads[0], now);
    LateMeansPassed(start, 0, 0);
    assert Plus(start, 0) == start;
  }

  /** The queue after an arrival: unchanged, or with the packet added and perhaps another
      one dropped. */
  ghost predicate Admitted(before: Buffer, after: Buffer, key: u32, payload: Payload, late: bool) {
    && after.started && after.next == before.next && after.stats.overflow >= before.stats.overflow
    && (late || key in before.queue ==> after.queue == before.queue)
    && (!late && key !in before.queue ==>
          && key in after.queue && after.queue[key] == payload
          && (forall k | k in after.queue && k != key :: k in before.queue && after.queue[k] == before.queue[k])
          && (after.stats.overflow == 0 ==> forall k | k in before.queue :: k in after.queue))
  }

  lemma PushEffect(b: Buffer, cfg: Config, key: u32, payload: Payload, now: nat)
    requires b.started
    ensures Admitted(b, AfterPush(b, cfg, key, payload, now), key, payload, Late(key, b.next))
  {
  }

  lemma ArrivalQueue(l: Listening, after: Listening, start: u32, payloads: seq<Payload>, i: nat, key: u32)
    requires QueueOk(l, start, payloads) && i < |payloads| && Ahead(key, start) == i
    requires Admitted(l.e.b, after.e.b, key, payloads[i], i < l.e.position)
    requires after.e.position == l.e.position
    requires after.inTime == if l.e.position <= i then l.inTime + {i} else l.inTime
    ensures QueueOk(after, start, payloads)
  {
  }

  lemma ArrivalComplete(l: Listening, after: Listening, start: u32, payloads: seq<Payload>, i: nat, key: u32)
    requires Complete(l, start) && i < |payloads| && key == Plus(start, i) && after.e.b.stats.overflow == 0
    requires Admitted(l.e.b, after.e.b, key, payloads[i], i < l.e.position)
    requires after.e.position == l.e.position && after.e.plays == l.e.plays
    requires after.inTime == if l.e.position <= i then l.inTime + {i} else l.inTime
    ensures Complete(after, start)
  {
  }

  lemma ArrivalKeeps(l: Listening, cfg: Config, start: u32, payloads: seq<Payload>, i: nat, now: nat)
    requires SpurtOk(l, cfg, start, payloads) && 0 < i < |payloads|
    ensures SpurtOk(Hear(l, cfg, start, payloads, Arrives(i, now)), cfg, start, payloads)
  {
    var key := Plus(start, i);
    var after := Hear(l, cfg, start, payloads, Arrives(i, now));
    EpochStepKeeps(l.e, cfg, Pushing(key, payloads[i], now));
    LateMeansPassed(start, i, l.e.position);
    PushEffect(l.e.b, cfg, key, payloads[i], now);
    ArrivalQueue(l, after, start, payloads, i, key);
    if after.e.b.stats.overflow == 0 {
      ArrivalComplete(l, after, start, payloads, i, key);
    }
  }

  /** A straggler is dropped as late, and the spurt goes on as before. */
  lemma StragglerKeeps(l: Listening, cfg: Config, start: u32, payloads: seq<Payload>, m: Media, now: nat)
    requires SpurtOk(l, cfg, start, payloads) && Straggler(m, start, |payloads|)
    ensures var after := Hear(l, cfg, start, payloads, Straggles(m, now));
      SpurtOk(after, cfg, start, payloads) && after.e.b.queue == l.e.b.queue && after.e.plays == l.e.plays
  {
    EpochStepKeeps(l.e, cfg, Pushing(m.key, m.payload, now));
    StragglerIsLate(start, m.key, l.e.position);
    PushEffect(l.e.b, cfg, m.key, m.payload, now);
  }

  lemma StragglerIsLate(start: u32, key: u32, position: nat)
    requires 0 < Ahead(start, key) && Ahead(start, key) + position <= HALF
    ensures Late(key, Plus(start, position))
  {
  }

  lemma PopEffect(l: Listening, cfg: Config, start: u32, payloads: seq<Payload>)
    requires SpurtOk(l, cfg, start, payloads)
    ensures var b, p := l.e.b, l.e.position;
      && (b.next in b.queue ==> p in l.inTime && p < |payloads| && b.queue[b.next] == payloads[p])
      && (b.queue != map[] ==> p < |payloads| && AfterPop(b).next != b.next)
      && (forall k | k in AfterPop(b).queue ::
            k in b.queue && AfterPop(b).queue[k] == b.queue[k] && p < Ahead(k, start))
  {
    var b, p := l.e.b, l.e.position;
    SuccMoves(b.next, start, p);
    AheadOfPlus(start, p);
    forall k | k in AfterPop(b).queue
      ensures k in b.queue && AfterPop(b).queue[k] == b.queue[k] && p < Ahead(k, start)
    {
      KeyOfAhead(k, start);
    }
    if b.queue != map[] {
      var k :| k in b.queue;
    }
  }

  lemma PlayQueueOk(l: Listening, after: Listening, start: u32, payloads: seq<Payload>)
    requires QueueOk(l, start, payloads) && after.inTime == l.inTime && after.e.position <= l.e.position + 1
    requires forall k | k in after.e.b.queue ::
               k in l.e.b.queue && after.e.b.queue[k] == l.e.b.queue[k] && l.e.position < Ahead(k, start)
    ensures QueueOk(after, start, payloads)
  {
  }

  lemma PlayPlaysOk(l: Listening, after: Listening, payloads: seq<Payload>)
    requires PlaysOk(l, payloads) && after.inTime == l.inTime
    requires after.e.plays == l.e.plays
          || (l.e.position in l.inTime && l.e.position < |payloads|
              && after.e.plays == l.e.plays + [Play(l.e.position, payloads[l.e.position])])
    ensures PlaysOk(after, payloads)
  {
  }

  lemma PlayKeeps(l: Listening, cfg: Config, start: u32, payloads: seq<Payload>)
    requires SpurtOk(l, cfg, start, payloads)
    ensures SpurtOk(Hear(l, cfg, start, payloads, Plays), cfg, start, payloads)
  {
    EpochStepKeeps(l.e, cfg, Popping);
    PopEffect(l, cfg, start, payloads);
    var after := Hear(l, cfg, start, payloads, Plays);
    PlayQueueOk(l, after, start, payloads);
    PlayPlaysOk(l, after, payloads);
    if l.e.b.stats.overflow == 0 {
      forall i | i in l.inTime
        ensures if i < after.e.position then PlayedAt(after.e.plays, i) else Plus(start, i) in after.e.b.queue
      {
        PlayKeepsComplete(l.e, cfg, start, i);
      }
    }
  }

  /** A read plays the packet whose turn it is and leaves every other queued one. */
  lemma PopMoves(e: Epoch, cfg: Config, key: u32)
    requires e.b.started && key in e.b.queue
    ensures var after := EpochStep(e, cfg, Popping);
      && (key == e.b.next ==> PlayedAt(after.plays, e.position) && after.position == e.position + 1)
      && (key != e.b.next ==> key in after.b.queue && after.position <= e.position + 1)
  {
    var after := EpochStep(e, cfg, Popping);
    if key == e.b.next {
      SuccMoves(e.b.next, e.b.next, 0);
      assert after.plays[|e.plays|].position == e.position;
    }
  }

  lemma PlayKeepsComplete(e: Epoch, cfg: Config, start: u32, i: nat)
    requires e.b.started && e.b.next == Plus(start, e.position) && i <= HALF && e.position <= HALF
    requires if i < e.position then PlayedAt(e.plays, i) else Plus(start, i) in e.b.queue
    ensures var after := EpochStep(e, cfg, Popping);
      if i < after.position then PlayedAt(after.plays, i) else Plus(start, i) in after.b.queue
  {
    var after := EpochStep(e, cfg, Popping);
    if i < e.position {
      var j :| 0 <= j < |e.plays| && e.plays[j].position == i;
      assert after.plays[j].position == i;
    } else {
      PopMoves(e, cfg, Plus(start, i));
      DistinctTurns(start, i, e.position);
    }
  }

  lemma DistinctTurns(start: u32, i: nat, j: nat)
    requires i <= HALF && j <= HALF
    ensures Plus(start, i) == Plus(start, j) <==> i == j
  {
    AheadOfPlus(start, i);
    AheadOfPlus(start, j);
  }

  /** A spurt of up to 2^31 packets, played while it arrives: after the marked packet, in
      any interleaving of reads with arrivals that are lost, repeated or out of order and with
      stragglers of earlier spurts, what is played at position p is packet p, and positions
      strictly increase. As long as nothing overflowed, exactly the packets that arrived
      before their turn are played. */
  lemma {:induction false} SpurtPlaysInOrder(cfg: Config, start: u32, payloads: seq<Payload>, events: seq<SpurtEvent>)
    requires 0 < |payloads| <= HALF && OfSpurt(events, start, |payloads|)
    requires |events| > 0 && events[0].Arrives? && events[0].i == 0
    ensures var l := HearAll(cfg, start, payloads, events);
      && SpurtOk(l, cfg, start, payloads)
      && (forall j | 0 <= j < |l.e.plays| ::
            l.e.plays[j].position < |payloads| && l.e.plays[j].payload == payloads[l.e.plays[j].position])
      && (forall i, j | 0 <= i < j < |l.e.plays| :: l.e.plays[i].position < l.e.plays[j].position)
      && (l.e.b.stats.overflow == 0 ==>
            forall p: nat | p < l.e.position :: PlayedAt(l.e.plays, p) <==> p in l.inTime)
  {
    var front, last := events[..|events| - 1], events[|events| - 1];
    if last.Arrives? && last.i == 0 {
      FirstHeard(cfg, start, payloads, last.now);
    } else {
      SpurtPlaysInOrder(cfg, start, payloads, front);
      var l := HearAll(cfg, start, payloads, front);
      match last
      case Arrives(i, now) => ArrivalKeeps(l, cfg, start, payloads, i, now);
      case Straggles(m, now) => StragglerKeeps(l, cfg, start, payloads, m, now);
      case Plays => PlayKeeps(l, cfg, start, payloads);
    }
  }

  /** That buffer is the source's own, fed with the packets the sender made. */
  lemma {:induction false} SpurtAtTheSource(
    s: Source, cfg: Config, sender: Sender, payloads: seq<Payload>, samples: nat, events: seq<SpurtEvent>)
    requires sender.marker && OfSpurt(events, sender.next, |payloads|)
    requires forall i | 0 <= i < |payloads| :: payloads[i] != []
    requires |events| > 0 && events[0].Arrives? && events[0].i == 0
    ensures SourceAfter(s, cfg, sender.next, PackAll(sender, payloads, samples), events).buffer
         == HearAll(cfg, sender.next, payloads, events).e.b
  {
    var front, last := events[..|events| - 1], events[|events| - 1];
    if last.Arrives? {
      PackedAt(sender, payloads, samples, last.i);
      assert Plus(sender.next, 0) == sender.next;
    }
    if |events| > 1 {
      SpurtAtTheSource(s, cfg, sender, payloads, samples, front);
    } else {
      assert last == events[0];
    }
  }

  // ---------------------------------------------------------------- the classes

  class MediaSender {
    var next: u32
    var timestamp: u32
    var marker: bool

    ghost function View(): Sender
      reads this
    {
      Sender(next, timestamp, marker)
    }

    constructor Open()
      ensures View() == Sender(0, 0, true)
    {
      next, timestamp, marker := 0, 0, true;
    }

    method ResetStream()
      modifies this
      ensures View() == old(View()).(marker := true)
    {
      marker := true;
    }

    /** `encoded` is what the encoder made of the frame, if it did not fail. */
    method PackFrame(encoded: Maybe<Payload>, samples: nat, pttActive: bool) returns (m: Maybe<Media>)
      modifies this
      ensures encoded.Nothing? ==> View() == old(View()) && m.Nothing?
      ensures encoded.Just? ==> m.Just? && (View(), m.value) == PackOne(old(View()), encoded.value, samples, pttActive)
    {
      if encoded.Nothing? {
        return Nothing;
      }
      m := Just(Media.Media(marker, pttActive, next, timestamp, encoded.value));
      next := (next + 1) % U32;
      timestamp := (timestamp + samples) % U32;
      marker := false;
    }
  }

  datatype Status = Ok | Underrun | SourceFailed

  class PhoneMediaSource {
    const buffer: JitterBuffer
    var running: bool
    var malformed: nat

    ghost function View(): Source
      reads this, buffer
    {
      Source(running, buffer.View(), malformed)
    }

    constructor (cfg: Config)
      ensures fresh(buffer) && buffer.cfg == cfg
      ensures View() == Source(false, NewBuffer(cfg), 0)
    {
      buffer := new JitterBuffer(cfg);
      running, malformed := false, 0;
    }

    method Start()
      modifies this, buffer
      ensures View() == old(View()).(running := true, buffer := NewBuffer(buffer.cfg))
    {
      buffer.Reset();
      running := true;
    }

    method Stop()
      modifies this, buffer
      ensures View() == old(View()).(running := false, buffer := NewBuffer(buffer.cfg))
    {
      running := false;
      buffer.Reset();
    }

    method OnMediaPayload(m: Media, now: nat) returns (ok: bool)
      modifies this, buffer
      ensures View() == OnMedia(old(View()), buffer.cfg, m, now)
      ensures ok <==> m.Media? && m.payload != []
    {
      if m.Malformed? {
        malformed := malformed + 1;
        return false;
      }
      if m.payload == [] {
        malformed := malformed + 1;
        return false;
      }
      if m.marker {
        buffer.Reset();
      }
      buffer.Push(m.key, m.payload, now);
      return true;
    }

    method Read(samples: nat, decodes: bool) returns (status: Status, out: Output)
      modifies buffer
      ensures View() == if running && samples == FRAME_SAMPLES then AfterRead(old(View())) else old(View())
      ensures out == if running && samples == FRAME_SAMPLES then Popped(old(View()).buffer) else Silence
      ensures status == if !running then SourceFailed else if out.Played? && decodes then Ok else Underrun
    {
      if !running {
        return SourceFailed, Silence;
      }
      var audible;
      out, audible := buffer.Pop(samples, decodes);
      status := if audible then Ok else Underrun;
    }

    method IsReady() returns (ready: bool)
      ensures ready == (running && Ready(buffer.View(), buffer.cfg))
    {
      var filled := buffer.IsReady();
      ready := running && filled;
    }
  }
}
