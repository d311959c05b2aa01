/** Whose audio makes the phone source ready (apps/service/main.cpp with
    shared/media/src/phone_media_source.cpp).  A request does not reset the source, and the
    marked frame of a spurt resets it only when it arrives, so frames of a released press can
    be what the next press is acknowledged on.  Frames are told apart by their index, the
    number of frames packed before them; fewer than 2^31 are packed. */
module PttAudio {
  import opened Basics
  import opened Encoding
  import opened Pairing
  import opened ReplayWindows
  import opened SecureChannels
  import opened LossyDelivery
  import opened PeerSessionModel
  import opened SessionDelivery
  import opened PhonePtt
  import opened ServicePtt
  import opened PttChain
  import opened PttAnswers
  import opened PttDeliveries
  import opened PttPresses
  import SourceStates
  import M = PhoneMedia
  import J = JitterBuffers
  import R = RouterModel
  import Runs = RouterRuns
  import SampleContinuity

  /** The index of a key, counted from the sender's first one. */
  function Index(key: J.u32, first: J.u32): nat {
    J.Ahead(key, first)
  }

  predicate IsAudio(codec: Codec, plain: Bytes) {
    codec.unpack(plain).Media? && codec.unpack(plain).payload != []
  }

  // ---------------------------------------------------------------- where frames come from

  /** What was sealed as audio was packed. */
  ghost predicate SealedFrames(codec: Codec, sent: seq<Bytes>, first: J.u32, packed: nat) {
    forall d | 0 <= d < |sent| && codec.unpack(sent[d]).Media? :: Index(codec.unpack(sent[d]).key, first) < packed
  }

  /** A queued payload is the frame that the phone sealed under its key. */
  ghost predicate SealedAs(codec: Codec, sent: seq<Bytes>, key: J.u32, payload: J.Payload) {
    exists d :: 0 <= d < |sent| && codec.unpack(sent[d]).Media?
                && codec.unpack(sent[d]).key == key && codec.unpack(sent[d]).payload == payload
  }

  ghost predicate QueuedFrames(codec: Codec, b: J.Buffer, sent: seq<Bytes>) {
    forall k | k in b.queue :: SealedAs(codec, sent, k, b.queue[k])
  }

  ghost predicate MediaOk(codec: Codec, w: World, first: J.u32) {
    && w.packed <= J.HALF && w.sender.next == J.Plus(first, w.packed)
    && SealedFrames(codec, w.up.link.sent, first, w.packed)
    && QueuedFrames(codec, w.service.media.buffer, w.up.link.sent)
    && (w.service.media.buffer.started ==> Index(w.service.media.buffer.next, first) <= w.packed)
  }

  lemma SealedLonger(codec: Codec, b: J.Buffer, sent: seq<Bytes>, plain: Bytes, first: J.u32, packed: nat, packed': nat)
    requires SealedFrames(codec, sent, first, packed) && QueuedFrames(codec, b, sent) && packed <= packed'
    requires codec.unpack(plain).Media? ==> Index(codec.unpack(plain).key, first) < packed'
    ensures SealedFrames(codec, sent + [plain], first, packed') && QueuedFrames(codec, b, sent + [plain])
  {
    forall k | k in b.queue
      ensures SealedAs(codec, sent + [plain], k, b.queue[k])
    {
      var d :| 0 <= d < |sent| && codec.unpack(sent[d]).Media?
        && codec.unpack(sent[d]).key == k && codec.unpack(sent[d]).payload == b.queue[k];
      assert (sent + [plain])[d] == sent[d];
    }
  }

  lemma QueuedIndex(codec: Codec, w: World, first: J.u32, k: J.u32)
    requires MediaOk(codec, w, first) && k in w.service.media.buffer.queue
    ensures Index(k, first) < w.packed
  {
    var b, sent := w.service.media.buffer, w.up.link.sent;
    assert SealedAs(codec, sent, k, b.queue[k]);
    var d :| 0 <= d < |sent| && codec.unpack(sent[d]).Media?
      && codec.unpack(sent[d]).key == k && codec.unpack(sent[d]).payload == b.queue[k];
  }

  /** The frame packed as number i has index i. */
  lemma PackedIndex(first: J.u32, i: nat)
    requires i < J.HALF
    ensures Index(J.Plus(first, i), first) == i && J.Succ(J.Plus(first, i)) == J.Plus(first, i + 1)
  {
  }

  lemma SealMedia(codec: Codec, w: World, plain: Bytes, first: J.u32)
    requires MediaOk(codec, w, first) && codec.unpack(plain) == M.Malformed
    ensures MediaOk(codec, w.(up := Happen(codec, w.up, Sealing(plain))), first)
  {
    SealedLonger(codec, w.service.media.buffer, w.up.link.sent, plain, first, w.packed, w.packed);
    assert Happen(codec, w.up, Sealing(plain)).link.sent == w.up.link.sent + [plain];
  }

  lemma CaptureMedia(codec: Codec, w: World, encoded: Maybe<J.Payload>, first: J.u32)
    requires Faithful(codec) && MediaOk(codec, w, first) && CaptureStep(codec, w, encoded).packed <= J.HALF
    ensures MediaOk(codec, CaptureStep(codec, w, encoded), first)
  {
    if Transmits(w, encoded) {
      var m := M.PackOne(w.sender, encoded.value, J.FRAME_SAMPLES, true).1;
      PackedIndex(first, w.packed);
      SealedLonger(codec, w.service.media.buffer, w.up.link.sent, codec.pack(m), first, w.packed, w.packed + 1);
      assert CaptureStep(codec, w, encoded).up.link.sent == w.up.link.sent + [codec.pack(m)];
    }
  }

  /** What a push leaves: the queue grows by at most the frame, and playout starts with it. */
  lemma PushLeaves(b: J.Buffer, cfg: J.Config, key: J.u32, payload: J.Payload, now: nat)
    ensures var a := J.AfterPush(b, cfg, key, payload, now);
      && a.started && a.next == (if b.started then b.next else key)
      && (J.Late(key, a.next) ==> a.queue == b.queue)
      && (forall k | k in a.queue :: (k == key && a.queue[k] == payload) || (k in b.queue && a.queue[k] == b.queue[k]))
  {
    J.PushQueues(b, cfg, key, payload, now);
  }

  /** The buffer a frame is pushed into. */
  function PushedInto(b: J.Buffer, m: M.Media, cfg: J.Config): J.Buffer
    requires m.Media?
  {
    if m.marker then J.NewBuffer(cfg) else b
  }

  lemma FedMedia(codec: Codec, w: World, w': World, d: nat, now: nat, first: J.u32, cfg: Setup)
    requires MediaOk(codec, w, first) && d < |w.up.link.sent|
    requires w'.sender == w.sender && w'.packed == w.packed && w'.up.link.sent == w.up.link.sent
    requires w'.service.media == M.OnMedia(w.service.media, cfg.jitter, codec.unpack(w.up.link.sent[d]), now)
    ensures MediaOk(codec, w', first)
  {
    var m, sent := codec.unpack(w.up.link.sent[d]), w.up.link.sent;
    if IsAudio(codec, sent[d]) {
      M.OnFrame(w.service.media, cfg.jitter, m, now);
      PushLeaves(PushedInto(w.service.media.buffer, m, cfg.jitter), cfg.jitter, m.key, m.payload, now);
      var b := w'.service.media.buffer;
      forall k | k in b.queue
        ensures SealedAs(codec, sent, k, b.queue[k])
      {
        if k in w.service.media.buffer.queue && b.queue[k] == w.service.media.buffer.queue[k] {
          assert SealedAs(codec, sent, k, w.service.media.buffer.queue[k]);
        }
      }
    }
  }

  lemma PcMedia(codec: Codec, w: World, tag: Tag, p: Packet, now: nat, first: J.u32, cfg: Setup)
    requires InboxOk(codec, w.up) && Feasible(w.up.link, Arrive(p)) && MediaOk(codec, w, first)
    ensures MediaOk(codec, PcStep(codec, w, tag, p, now, cfg), first)
  {
    var call := CallAt(codec, w.up, tag, p);
    match call
    case NoCall =>
    case Media(plain) =>
      var d := OpenedAt(codec, w.up, tag, p);
      FedMedia(codec, w, PcStep(codec, w, tag, p, now, cfg), d, now, first, cfg);
    case Control(m) => PcShape(codec, w, tag, p, now, m.kind, cfg);
  }

  /** The datagram that was called is one the phone sealed. */
  lemma OpenedAt(codec: Codec, b: Inbox, tag: Tag, p: Packet) returns (d: nat)
    requires InboxOk(codec, b) && Feasible(b.link, Arrive(p)) && CallAt(codec, b, tag, p).Media?
    ensures d < |b.link.sent| && CallAt(codec, b, tag, p) == Media(b.link.sent[d])
    ensures p.Packet? && p.counter == d && Fresh(WINDOW, b.link.receiver.accepted, d)
  {
    var n: nat :| n < |b.link.sent| && p.body == Wire(b.link, n).body;
    d := n;
  }

  /** A read moves playout on only past a packed frame. */
  lemma PopMedia(b: J.Buffer, cfg: J.Config, first: J.u32, packed: nat)
    requires J.Inv(b, cfg) && packed <= J.HALF && (forall k | k in b.queue :: Index(k, first) < packed)
    requires b.started ==> Index(b.next, first) <= packed
    ensures var a := J.AfterPop(b);
      && a.started == b.started && (a.started ==> Index(b.next, first) <= Index(a.next, first) <= packed)
      && (forall k | k in a.queue :: k in b.queue && a.queue[k] == b.queue[k])
  {
    if b.started && b.queue != map[] {
      var k :| k in b.queue;
      AheadMeansLater(k, b.next, first, packed);
      NextIndex(b.next, first);
    }
  }

  /** A key less than half a circle ahead of the next one has at least its index. */
  lemma AheadMeansLater(k: J.u32, next: J.u32, first: J.u32, packed: nat)
    requires packed <= J.HALF && Index(k, first) < packed && Index(next, first) <= packed && J.Ahead(k, next) < J.HALF
    ensures Index(next, first) <= Index(k, first)
  {
    M.KeyOfAhead(k, first);
    M.KeyOfAhead(next, first);
    M.LateMeansPassed(first, Index(k, first), Index(next, first));
  }

  lemma NextIndex(next: J.u32, first: J.u32)
    requires Index(next, first) < J.HALF
    ensures Index(J.Succ(next), first) == Index(next, first) + 1
  {
    M.KeyOfAhead(next, first);
    PackedIndex(first, Index(next, first));
    M.LateMeansPassed(first, Index(next, first), 0);
    SuccIndex(next, first);
  }

  lemma SuccIndex(next: J.u32, first: J.u32)
    requires J.Ahead(next, first) + 1 < U32
    ensures J.Ahead(J.Succ(next), first) == J.Ahead(next, first) + 1
  {
  }

  lemma TurnMedia(codec: Codec, w: World, local: R.Source, heard: R.Samples, first: J.u32, cfg: Setup)
    requires J.Inv(w.service.media.buffer, cfg.jitter) && MediaOk(codec, w, first)
    ensures MediaOk(codec, TurnStep(codec, w, local, heard, cfg), first)
    ensures var a, b := TurnStep(codec, w, local, heard, cfg).service.media.buffer, w.service.media.buffer;
      && a.started == b.started && (a.started ==> Index(b.next, first) <= Index(a.next, first))
      && (forall k | k in a.queue :: k in b.queue)
  {
    var b := w.service.media.buffer;
    forall k | k in b.queue
      ensures Index(k, first) < w.packed
    {
      QueuedIndex(codec, w, first, k);
    }
    PopMedia(b, cfg.jitter, first, w.packed);
    TurnReads(codec, w, local, heard, cfg);
  }

  /** A turn reads the phone source once or not at all. */
  lemma TurnReads(codec: Codec, w: World, local: R.Source, heard: R.Samples, cfg: Setup)
    ensures var w' := TurnStep(codec, w, local, heard, cfg);
      && (w'.service.media == w.service.media || w'.service.media == M.AfterRead(w.service.media))
      && w'.up == w.up && w'.sender == w.sender && w'.packed == w.packed
  {
  }

  lemma SendingMedia(codec: Codec, w: World, a: Action, first: J.u32, cfg: Setup)
    requires Faithful(codec) && MediaOk(codec, w, first) && (a.PhoneActs? || a.Captures? || a.PhoneSends?)
    requires Step(codec, w, a, cfg).packed <= J.HALF
    ensures MediaOk(codec, Step(codec, w, a, cfg), first)
  {
    match a
    case PhoneActs(act) => PhoneMediaOk(codec, w, act, first);
    case Captures(encoded) => CaptureMedia(codec, w, encoded, first);
    case PhoneSends(kind) => SealMedia(codec, w, codec.encode(ControlMessage(kind, w.upNumber + 1)), first);
  }

  lemma StepMedia(codec: Codec, w: World, a: Action, first: J.u32, cfg: Setup)
    requires WorldOk(codec, w, cfg) && Enabled(codec, w, a) && MediaOk(codec, w, first)
    requires Step(codec, w, a, cfg).packed <= J.HALF
    ensures MediaOk(codec, Step(codec, w, a, cfg), first)
  {
    if a.ServiceTurn? {
      TurnMedia(codec, w, a.local, a.heard, first, cfg);
    } else if a.ReachPc? {
      PcMedia(codec, w, a.tag, a.packet, a.now, first, cfg);
    } else if a.PhoneActs? || a.Captures? || a.PhoneSends? {
      SendingMedia(codec, w, a, first, cfg);
    }
  }

  lemma PhoneMediaOk(codec: Codec, w: World, act: PhoneAct, first: J.u32)
    requires Faithful(codec) && MediaOk(codec, w, first)
    ensures MediaOk(codec, PhoneStep(codec, w, act), first)
  {
    SealMedia(codec, w, codec.encode(ControlMessage(StartPtt, w.upNumber + 1)), first);
    SealMedia(codec, w, codec.encode(ControlMessage(StopPtt, w.upNumber + 1)), first);
  }

  lemma PackedGrows(codec: Codec, w: World, a: Action, cfg: Setup)
    ensures w.packed <= Step(codec, w, a, cfg).packed
  {
  }

  /** In every run, what the source holds was sealed by the phone under its key, and playout
      is never ahead of what was packed. */
  lemma {:induction false} EveryRunMedia(codec: Codec, w: World, actions: seq<Action>, first: J.u32, cfg: Setup)
    requires WorldOk(codec, w, cfg) && MediaOk(codec, w, first) && AllEnabled(codec, w, actions, cfg)
    requires Run(codec, w, actions, cfg).packed <= J.HALF
    ensures MediaOk(codec, Run(codec, w, actions, cfg), first)
  {
    if actions != [] {
      var front, last := actions[..|actions| - 1], actions[|actions| - 1];
      FrontEnabled(codec, w, actions, cfg);
      PackedGrows(codec, Run(codec, w, front, cfg), last, cfg);
      EveryRunMedia(codec, w, front, first, cfg);
      EveryRunIsOk(codec, w, front, cfg);
      StepMedia(codec, Run(codec, w, front, cfg), last, first, cfg);
    }
  }

  // ---------------------------------------------------------------- only its own

  /** Everything queued was packed as number `from` or later. */
  predicate AllFrom(b: J.Buffer, first: J.u32, from: nat) {
    forall k | k in b.queue :: Index(k, first) >= from
  }

  /** A frame packed before that would not be queued if it arrived now: it is not marked, and
      playout has passed it. */
  ghost predicate Refused(codec: Codec, w: World, first: J.u32, d: nat)
    requires d < |w.up.link.sent|
  {
    var m, b := codec.unpack(w.up.link.sent[d]), w.service.media.buffer;
    m.Media? && !m.marker && b.started && Index(m.key, first) < Index(b.next, first)
  }

  ghost predicate EarlierRefused(codec: Codec, w: World, first: J.u32, from: nat) {
    forall d: nat | d < |w.up.link.sent| && Fresh(WINDOW, w.up.link.receiver.accepted, d)
                    && IsAudio(codec, w.up.link.sent[d]) && Index(codec.unpack(w.up.link.sent[d]).key, first) < from ::
      Refused(codec, w, first, d)
  }

  /** Nothing of what has been packed so far is in the buffer or can still get there. */
  ghost predicate NoEarlierAudio(codec: Codec, w: World, first: J.u32) {
    w.service.media.buffer.queue == map[] && EarlierRefused(codec, w, first, w.packed)
  }

  ghost predicate OwnOnly(codec: Codec, w: World, first: J.u32, from: nat) {
    from <= w.packed && AllFrom(w.service.media.buffer, first, from) && EarlierRefused(codec, w, first, from)
  }

  lemma SealOwn(codec: Codec, w: World, w': World, plain: Bytes, first: J.u32, from: nat)
    requires OwnOnly(codec, w, first, from) && w'.service == w.service && w.packed <= w'.packed
    requires w'.up == Happen(codec, w.up, Sealing(plain))
    requires codec.unpack(plain).Media? ==> Index(codec.unpack(plain).key, first) >= from
    ensures OwnOnly(codec, w', first, from)
  {
    assert w'.up.link.sent == w.up.link.sent + [plain];
    forall d: nat | d < |w'.up.link.sent| && Fresh(WINDOW, w'.up.link.receiver.accepted, d)
                    && IsAudio(codec, w'.up.link.sent[d]) && Index(codec.unpack(w'.up.link.sent[d]).key, first) < from
      ensures Refused(codec, w', first, d)
    {
      assert d < |w.up.link.sent|;
      assert Refused(codec, w, first, d);
    }
  }

  /** Playout has moved on or started at a frame that is not earlier. */
  lemma MovedOn(codec: Codec, w: World, w': World, first: J.u32, from: nat)
    requires OwnOnly(codec, w, first, from) && w'.packed == w.packed && w'.up.link.sent == w.up.link.sent
    requires forall d: nat :: Fresh(WINDOW, w'.up.link.receiver.accepted, d) ==> Fresh(WINDOW, w.up.link.receiver.accepted, d)
    requires AllFrom(w'.service.media.buffer, first, from)
    requires w'.service.media.buffer.started == w.service.media.buffer.started || w'.service.media.buffer.started
    requires w'.service.media.buffer.started ==>
      || Index(w'.service.media.buffer.next, first) >= from
      || (w.service.media.buffer.started
          && Index(w.service.media.buffer.next, first) <= Index(w'.service.media.buffer.next, first))
    ensures OwnOnly(codec, w', first, from)
  {
    forall d: nat | d < |w'.up.link.sent| && Fresh(WINDOW, w'.up.link.receiver.accepted, d)
                    && IsAudio(codec, w'.up.link.sent[d]) && Index(codec.unpack(w'.up.link.sent[d]).key, first) < from
      ensures Refused(codec, w', first, d)
    {
      assert Refused(codec, w, first, d);
    }
  }

  lemma FreshShrinks(codec: Codec, b: Inbox, tag: Tag, p: Packet)
    ensures var b' := Happen(codec, b, Receiving(tag, p));
      b'.link.sent == b.link.sent
      && forall d: nat :: Fresh(WINDOW, b'.link.receiver.accepted, d) ==> Fresh(WINDOW, b.link.receiver.accepted, d)
  {
  }

  /** What a pushed frame does to the indices, if it is not earlier or is refused. */
  lemma FedOwn(codec: Codec, w: World, d: nat, now: nat, first: J.u32, from: nat, cfg: Setup)
    requires MediaOk(codec, w, first) && OwnOnly(codec, w, first, from) && d < |w.up.link.sent|
    requires Fresh(WINDOW, w.up.link.receiver.accepted, d)
    ensures var b, a := w.service.media.buffer, M.OnMedia(w.service.media, cfg.jitter, codec.unpack(w.up.link.sent[d]), now).buffer;
      && AllFrom(a, first, from)
      && (b.started ==> a.started)
      && (a.started ==> Index(a.next, first) >= from || (b.started && Index(b.next, first) <= Index(a.next, first)))
  {
    var m, b := codec.unpack(w.up.link.sent[d]), w.service.media.buffer;
    if IsAudio(codec, w.up.link.sent[d]) {
      M.OnFrame(w.service.media, cfg.jitter, m, now);
      PushLeaves(PushedInto(b, m, cfg.jitter), cfg.jitter, m.key, m.payload, now);
      if Index(m.key, first) < from {
        assert Refused(codec, w, first, d);
        PassedIsLate(m.key, b.next, first, w.packed);
      }
    }
  }

  lemma PassedIsLate(key: J.u32, next: J.u32, first: J.u32, packed: nat)
    requires packed <= J.HALF && Index(key, first) < Index(next, first) <= packed
    ensures J.Late(key, next)
  {
    M.KeyOfAhead(key, first);
    M.KeyOfAhead(next, first);
    M.LateMeansPassed(first, Index(key, first), Index(next, first));
  }

  lemma PcOwn(codec: Codec, w: World, tag: Tag, p: Packet, now: nat, first: J.u32, from: nat, cfg: Setup)
    requires InboxOk(codec, w.up) && Feasible(w.up.link, Arrive(p)) && MediaOk(codec, w, first)
    requires OwnOnly(codec, w, first, from)
    ensures OwnOnly(codec, PcStep(codec, w, tag, p, now, cfg), first, from)
  {
    var call, w' := CallAt(codec, w.up, tag, p), PcStep(codec, w, tag, p, now, cfg);
    FreshShrinks(codec, w.up, tag, p);
    match call
    case NoCall => MovedOn(codec, w, w', first, from);
    case Media(_) =>
      var d := OpenedAt(codec, w.up, tag, p);
      FedOwn(codec, w, d, now, first, from, cfg);
      MovedOn(codec, w, w', first, from);
    case Control(m) =>
      PcShape(codec, w, tag, p, now, m.kind, cfg);
      MovedOn(codec, w, w', first, from);
  }

  lemma TurnOwn(codec: Codec, w: World, local: R.Source, heard: R.Samples, first: J.u32, from: nat, cfg: Setup)
    requires J.Inv(w.service.media.buffer, cfg.jitter) && MediaOk(codec, w, first) && OwnOnly(codec, w, first, from)
    ensures OwnOnly(codec, TurnStep(codec, w, local, heard, cfg), first, from)
  {
    TurnMedia(codec, w, local, heard, first, cfg);
    TurnReads(codec, w, local, heard, cfg);
    MovedOn(codec, w, TurnStep(codec, w, local, heard, cfg), first, from);
  }

  lemma SentUpOwn(codec: Codec, w: World, w': World, kind: Kind, first: J.u32, from: nat)
    requires Faithful(codec) && OwnOnly(codec, w, first, from) && w'.service == w.service && w'.packed == w.packed
    requires w'.up == w.up || w'.up == Happen(codec, w.up, Sealing(codec.encode(ControlMessage(kind, w.upNumber + 1))))
    ensures OwnOnly(codec, w', first, from)
  {
    if w'.up != w.up {
      SealOwn(codec, w, w', codec.encode(ControlMessage(kind, w.upNumber + 1)), first, from);
    } else {
      MovedOn(codec, w, w', first, from);
    }
  }

  lemma PhoneOwn(codec: Codec, w: World, act: PhoneAct, first: J.u32, from: nat)
    requires Faithful(codec) && OwnOnly(codec, w, first, from)
    ensures OwnOnly(codec, PhoneStep(codec, w, act), first, from)
  {
    SentUpOwn(codec, w, PhoneStep(codec, w, act), if act.Presses? then StartPtt else StopPtt, first, from);
  }

  lemma CaptureOwn(codec: Codec, w: World, encoded: Maybe<J.Payload>, first: J.u32, from: nat)
    requires Faithful(codec) && MediaOk(codec, w, first) && OwnOnly(codec, w, first, from)
    requires CaptureStep(codec, w, encoded).packed <= J.HALF
    ensures OwnOnly(codec, CaptureStep(codec, w, encoded), first, from)
  {
    if Transmits(w, encoded) {
      PackedIndex(first, w.packed);
      var m := M.PackOne(w.sender, encoded.value, J.FRAME_SAMPLES, true).1;
      SealOwn(codec, w, CaptureStep(codec, w, encoded), codec.pack(m), first, from);
    }
  }

  lemma SendingOwn(codec: Codec, w: World, a: Action, first: J.u32, from: nat, cfg: Setup)
    requires Faithful(codec) && MediaOk(codec, w, first) && (a.PhoneActs? || a.Captures? || a.PhoneSends?)
    requires OwnOnly(codec, w, first, from) && Step(codec, w, a, cfg).packed <= J.HALF
    ensures OwnOnly(codec, Step(codec, w, a, cfg), first, from)
  {
    match a
    case PhoneActs(act) => PhoneOwn(codec, w, act, first, from);
    case Captures(encoded) => CaptureOwn(codec, w, encoded, first, from);
    case PhoneSends(kind) => SentUpOwn(codec, w, Step(codec, w, a, cfg), kind, first, from);
  }

  /** What the PC sends and what reaches the phone do not touch the source. */
  lemma DownOwn(codec: Codec, w: World, a: Action, first: J.u32, from: nat, cfg: Setup)
    requires OwnOnly(codec, w, first, from) && (a.ServiceSends? || a.ReachPhone?)
    ensures OwnOnly(codec, Step(codec, w, a, cfg), first, from)
  {
    MovedOn(codec, w, Step(codec, w, a, cfg), first, from);
  }

  lemma StepOwn(codec: Codec, w: World, a: Action, first: J.u32, from: nat, cfg: Setup)
    requires WorldOk(codec, w, cfg) && Enabled(codec, w, a) && MediaOk(codec, w, first)
    requires OwnOnly(codec, w, first, from) && Step(codec, w, a, cfg).packed <= J.HALF
    ensures OwnOnly(codec, Step(codec, w, a, cfg), first, from)
  {
    if a.ServiceTurn? {
      TurnOwn(codec, w, a.local, a.heard, first, from, cfg);
    } else if a.ReachPc? {
      PcOwn(codec, w, a.tag, a.packet, a.now, first, from, cfg);
    } else if a.ServiceSends? || a.ReachPhone? {
      DownOwn(codec, w, a, first, from, cfg);
    } else {
      SendingOwn(codec, w, a, first, from, cfg);
    }
  }

  lemma {:induction false} RunOwn(codec: Codec, w: World, actions: seq<Action>, first: J.u32, from: nat, cfg: Setup)
    requires WorldOk(codec, w, cfg) && MediaOk(codec, w, first) && OwnOnly(codec, w, first, from)
    requires AllEnabled(codec, w, actions, cfg) && Run(codec, w, actions, cfg).packed <= J.HALF
    ensures OwnOnly(codec, Run(codec, w, actions, cfg), first, from)
  {
    if actions != [] {
      var front, last := actions[..|actions| - 1], actions[|actions| - 1];
      FrontEnabled(codec, w, actions, cfg);
      PackedGrows(codec, Run(codec, w, front, cfg), last, cfg);
      RunOwn(codec, w, front, first, from, cfg);
      EveryRunMedia(codec, w, front, first, cfg);
      EveryRunIsOk(codec, w, front, cfg);
      StepOwn(codec, Run(codec, w, front, cfg), last, first, from, cfg);
    }
  }

  lemma PressOwn(codec: Codec, w: World, now: nat, first: J.u32, cfg: Setup)
    requires WorldOk(codec, w, cfg) && MediaOk(codec, w, first) && PressSends(w.phone) && NoEarlierAudio(codec, w, first)
    ensures var w1 := PhoneStep(codec, w, Presses(now)); MediaOk(codec, w1, first) && OwnOnly(codec, w1, first, w.packed)
  {
    PressShape(codec, w, now);
    PhoneMediaOk(codec, w, Presses(now), first);
    SentUpOwn(codec, w, PhoneStep(codec, w, Presses(now)), StartPtt, first, w.packed);
  }

  // ---------------------------------------------------------------- where it fails

  /** Something queued was packed before `from`. */
  lemma EarlierQueued(codec: Codec, w: World, first: J.u32)
    requires MediaOk(codec, w, first) && w.service.media.buffer.queue != map[]
    ensures !AllFrom(w.service.media.buffer, first, w.packed)
  {
    var k :| k in w.service.media.buffer.queue;
    QueuedIndex(codec, w, first, k);
  }

  /** A sealed frame arrives. */
  lemma FrameArrives(codec: Codec, w: World, d: nat, cfg: Setup) returns (a: Action)
    requires InboxOk(codec, w.up) && d < |w.up.link.sent| && Fresh(WINDOW, w.up.link.receiver.accepted, d)
    ensures Enabled(codec, w, a)
    ensures var w' := Step(codec, w, a, cfg);
      && OnlyMedia(w, w') && w'.sender == w.sender && w'.packed == w.packed
      && w'.service.media == M.OnMedia(w.service.media, cfg.jitter, codec.unpack(w.up.link.sent[d]), 0)
  {
    var p := Wire(w.up.link, d);
    a := ReachPc(MediaTag, p, 0);
    assert Opens(w.up.link.receiver, p);
    MediaServed(codec, w, p, w.up.link.sent[d], cfg);
  }

  /** An empty buffer queues a frame that it does not refuse. */
  lemma AcceptedIsQueued(b: J.Buffer, cfg: J.Config, m: M.Media, now: nat, first: J.u32, packed: nat)
    requires m.Media? && m.payload != [] && b.queue == map[] && packed <= J.HALF && Index(m.key, first) < packed
    requires b.started ==> Index(b.next, first) <= packed
    requires m.marker || !b.started || Index(b.next, first) <= Index(m.key, first)
    ensures var a := J.AfterPush(PushedInto(b, m, cfg), cfg, m.key, m.payload, now); a.started && m.key in a.queue
  {
    if b.started && !m.marker {
      M.KeyOfAhead(m.key, first);
      M.KeyOfAhead(b.next, first);
      M.LateMeansPassed(first, Index(m.key, first), Index(b.next, first));
    }
    J.AheadOfPlus(m.key, 0);
    M.PlusZero(m.key);
  }

  /** If an earlier frame is about, it gets into the buffer. */
  lemma EarlierGetsIn(codec: Codec, w: World, first: J.u32, from: nat, cfg: Setup) returns (actions: seq<Action>)
    requires WorldOk(codec, w, cfg) && MediaOk(codec, w, first)
    requires !(AllFrom(w.service.media.buffer, first, from) && EarlierRefused(codec, w, first, from))
    requires w.service.media.buffer.queue != map[] ==> !AllFrom(w.service.media.buffer, first, from)
    ensures AllEnabled(codec, w, actions, cfg)
    ensures var v := Run(codec, w, actions, cfg);
      && v.phone == w.phone && v.sender == w.sender && v.packed == w.packed
      && !AllFrom(v.service.media.buffer, first, from) && v.service.media.buffer.started
  {
    var b := w.service.media.buffer;
    actions := [];
    if b.queue == map[] {
      var d: nat :| d < |w.up.link.sent| && Fresh(WINDOW, w.up.link.receiver.accepted, d)
        && IsAudio(codec, w.up.link.sent[d]) && Index(codec.unpack(w.up.link.sent[d]).key, first) < from
        && !Refused(codec, w, first, d);
      var m := codec.unpack(w.up.link.sent[d]);
      var a := FrameArrives(codec, w, d, cfg);
      RunSnoc(codec, w, [], a, cfg);
      actions := [] + [a];
      M.OnFrame(w.service.media, cfg.jitter, m, 0);
      AcceptedIsQueued(b, cfg.jitter, m, 0, first, w.packed);
    }
  }

  /** An unmarked frame joins a started buffer that has room. */
  lemma JoinsQueue(b: J.Buffer, cfg: J.Config, first: J.u32, packed: nat, now: nat)
    requires J.Inv(b, cfg) && b.started && packed < J.HALF && (forall k | k in b.queue :: Index(k, first) < packed)
    requires Index(b.next, first) <= packed && |b.queue| < cfg.MaxEntries()
    ensures var key := J.Plus(first, packed);
      var a := J.AfterPush(b, cfg, key, M.FRAME, now);
      a.started && a.queue == b.queue[key := M.FRAME] && |a.queue| == |b.queue| + 1
  {
    var key := J.Plus(first, packed);
    PackedIndex(first, packed);
    M.KeyOfAhead(b.next, first);
    M.LateMeansPassed(first, packed, Index(b.next, first));
    M.PushShape(b, cfg, key, M.FRAME, now);
    J.AddSize(b.queue, key, M.FRAME);
  }

  /** Unmarked frames join the queue until it is ready, and what was in it stays. */
  lemma {:induction false} FillsBehind(codec: Codec, w: World, first: J.u32, from: nat, cfg: Setup)
      returns (actions: seq<Action>)
    requires WorldOk(codec, w, cfg) && MediaOk(codec, w, first) && M.Fillable(cfg.jitter)
    requires w.phone.pressed && w.phone.authenticated && !w.sender.marker
    requires w.service.media.buffer.started && !AllFrom(w.service.media.buffer, first, from)
    requires w.packed + cfg.jitter.MaxEntries() <= J.HALF + |w.service.media.buffer.queue|
    ensures AllEnabled(codec, w, actions, cfg)
    ensures var v := Run(codec, w, actions, cfg);
      v.packed <= J.HALF && SourceReady(v.service, cfg) && !AllFrom(v.service.media.buffer, first, from)
    decreases cfg.jitter.MaxEntries() - |w.service.media.buffer.queue|
  {
    var b := w.service.media.buffer;
    actions := [];
    if !SourceReady(w.service, cfg) {
      assert |b.queue| < cfg.jitter.MaxEntries();
      actions := FrameThrough(codec, w, M.FRAME, cfg);
      var v := Run(codec, w, actions, cfg);
      OneMore(codec, w, v, first, from, cfg);
      EveryRunIsOk(codec, w, actions, cfg);
      EveryRunMedia(codec, w, actions, first, cfg);
      var more := FillsBehind(codec, v, first, from, cfg);
      RunConcat(codec, w, actions, more, cfg);
      actions := actions + more;
    }
  }

  lemma OneMore(codec: Codec, w: World, v: World, first: J.u32, from: nat, cfg: Setup)
    requires J.Inv(w.service.media.buffer, cfg.jitter) && MediaOk(codec, w, first) && !w.sender.marker
    requires w.service.media.buffer.started && !AllFrom(w.service.media.buffer, first, from)
    requires |w.service.media.buffer.queue| < cfg.jitter.MaxEntries() && w.packed < J.HALF
    requires v.service.media ==
      M.OnMedia(w.service.media, cfg.jitter, M.PackOne(w.sender, M.FRAME, J.FRAME_SAMPLES, true).1, 0)
    ensures var b, a := w.service.media.buffer, v.service.media.buffer;
      a.started && !AllFrom(a, first, from) && |a.queue| == |b.queue| + 1
  {
    var b, m := w.service.media.buffer, M.PackOne(w.sender, M.FRAME, J.FRAME_SAMPLES, true).1;
    forall k | k in b.queue
      ensures Index(k, first) < w.packed
    {
      QueuedIndex(codec, w, first, k);
    }
    M.OnFrame(w.service.media, cfg.jitter, m, 0);
    JoinsQueue(b, cfg.jitter, first, w.packed, 0);
    var k :| k in b.queue && Index(k, first) < from;
    assert k in v.service.media.buffer.queue;
  }

  /** From a pressed phone: an earlier frame in the buffer, the marked frame withheld, and
      unmarked ones behind it. */
  lemma ReadyOnEarlier(codec: Codec, w: World, first: J.u32, from: nat, cfg: Setup) returns (actions: seq<Action>)
    requires WorldOk(codec, w, cfg) && MediaOk(codec, w, first) && M.Fillable(cfg.jitter)
    requires w.phone.pressed && w.phone.authenticated && w.packed + cfg.jitter.MaxEntries() < J.HALF
    requires !(AllFrom(w.service.media.buffer, first, from) && EarlierRefused(codec, w, first, from))
    requires w.service.media.buffer.queue != map[] ==> !AllFrom(w.service.media.buffer, first, from)
    ensures AllEnabled(codec, w, actions, cfg)
    ensures var v := Run(codec, w, actions, cfg);
      v.packed <= J.HALF && SourceReady(v.service, cfg) && !AllFrom(v.service.media.buffer, first, from)
  {
    actions := EarlierGetsIn(codec, w, first, from, cfg);
    RunSnoc(codec, w, actions, Captures(Just(M.FRAME)), cfg);
    actions := actions + [Captures(Just(M.FRAME))];
    EveryRunIsOk(codec, w, actions, cfg);
    EveryRunMedia(codec, w, actions, first, cfg);
    var more := FillsBehind(codec, Run(codec, w, actions, cfg), first, from, cfg);
    RunConcat(codec, w, actions, more, cfg);
    actions := actions + more;
  }

  /** A press leaves the frames as they were. */
  lemma PressAudio(codec: Codec, w: World, now: nat, first: J.u32)
    requires Faithful(codec) && MediaOk(codec, w, first) && PressSends(w.phone)
    ensures var w1 := PhoneStep(codec, w, Presses(now));
      && MediaOk(codec, w1, first) && w1.packed == w.packed && w1.service == w.service
      && (EarlierRefused(codec, w1, first, w.packed) ==> EarlierRefused(codec, w, first, w.packed))
  {
    PressShape(codec, w, now);
    PhoneMediaOk(codec, w, Presses(now), first);
    var w1 := PhoneStep(codec, w, Presses(now));
    if EarlierRefused(codec, w1, first, w.packed) {
      forall d: nat | d < |w.up.link.sent| && Fresh(WINDOW, w.up.link.receiver.accepted, d)
                      && IsAudio(codec, w.up.link.sent[d]) && Index(codec.unpack(w.up.link.sent[d]).key, first) < w.packed
        ensures Refused(codec, w, first, d)
      {
        assert w1.up.link.sent[d] == w.up.link.sent[d];
        assert Refused(codec, w1, first, d);
      }
    }
  }

  /** The source is ready on the frames of this press, or later ones, alone. */
  ghost predicate ReadyOnItsOwn(codec: Codec, w: World, now: nat, first: J.u32, cfg: Setup) {
    var w1 := Step(codec, w, PhoneActs(Presses(now)), cfg);
    forall actions |
      && AllEnabled(codec, w1, actions, cfg) && Run(codec, w1, actions, cfg).packed <= J.HALF
      && SourceReady(Run(codec, w1, actions, cfg).service, cfg) ::
      AllFrom(Run(codec, w1, actions, cfg).service.media.buffer, first, w.packed)
  }

  /** When it is, in every continuation: exactly when at the press no earlier frame is queued
      or could still be. The acknowledgement goes out only while the source is ready. */
  lemma OwnAudioIff(codec: Codec, w: World, now: nat, first: J.u32, cfg: Setup)
    requires WorldOk(codec, w, cfg) && MediaOk(codec, w, first) && PressSends(w.phone)
    requires M.Fillable(cfg.jitter) && w.packed + cfg.jitter.MaxEntries() < J.HALF
    ensures ReadyOnItsOwn(codec, w, now, first, cfg) <==> NoEarlierAudio(codec, w, first)
  {
    if NoEarlierAudio(codec, w, first) {
      OwnAudioAlone(codec, w, now, first, cfg);
    } else {
      var actions := OnEarlierAudio(codec, w, now, first, cfg);
    }
  }

  lemma OwnAudioAlone(codec: Codec, w: World, now: nat, first: J.u32, cfg: Setup)
    requires WorldOk(codec, w, cfg) && MediaOk(codec, w, first) && PressSends(w.phone)
    requires NoEarlierAudio(codec, w, first)
    ensures ReadyOnItsOwn(codec, w, now, first, cfg)
  {
    var w1 := Step(codec, w, PhoneActs(Presses(now)), cfg);
    PressedWorld(codec, w, now, cfg);
    PressOwn(codec, w, now, first, cfg);
    forall actions |
      && AllEnabled(codec, w1, actions, cfg) && Run(codec, w1, actions, cfg).packed <= J.HALF
      && SourceReady(Run(codec, w1, actions, cfg).service, cfg)
      ensures AllFrom(Run(codec, w1, actions, cfg).service.media.buffer, first, w.packed)
    {
      RunOwn(codec, w1, actions, first, w.packed, cfg);
    }
  }

  /** Otherwise some continuation makes the source ready with an earlier frame in it. */
  lemma OnEarlierAudio(codec: Codec, w: World, now: nat, first: J.u32, cfg: Setup) returns (actions: seq<Action>)
    requires WorldOk(codec, w, cfg) && MediaOk(codec, w, first) && PressSends(w.phone)
    requires M.Fillable(cfg.jitter) && w.packed + cfg.jitter.MaxEntries() < J.HALF
    requires !NoEarlierAudio(codec, w, first)
    ensures var w1 := Step(codec, w, PhoneActs(Presses(now)), cfg);
      && AllEnabled(codec, w1, actions, cfg)
      && var end := Run(codec, w1, actions, cfg);
         && end.packed <= J.HALF && SourceReady(end.service, cfg)
         && !AllFrom(end.service.media.buffer, first, w.packed)
  {
    PressShape(codec, w, now);
    PressedWorld(codec, w, now, cfg);
    PressAudio(codec, w, now, first);
    if w.service.media.buffer.queue != map[] {
      EarlierQueued(codec, w, first);
    }
    actions := ReadyOnEarlier(codec, PhoneStep(codec, w, Presses(now)), first, w.packed, cfg);
  }

  // ---------------------------------------------------------------- a run of a fresh epoch

  lemma NewEpochMedia(codec: Codec, phone: Phone, sender: M.Sender, key: SessionKey, cfg: Setup)
    ensures MediaOk(codec, NewEpoch(phone, sender, Started(cfg), key), sender.next)
  {
    M.PlusZero(sender.next);
  }

  /** A press that arms from a still and open gate does not read the phone. */
  lemma ArmingReadsNothing(s: Service, local: R.Source, heard: R.Samples, cfg: Setup)
    requires Orderly(s, cfg) && s.router.pending == [SourceStates.Event.StartPtt] && !local.Failing?
    requires s.router.machine == SourceStates.Machine(SourceStates.LocalActive, SourceStates.AutoMode)
    requires s.router.gate.position == 1.0
    ensures var t := Ticked(s, local, heard, cfg);
      && t.media == s.media && t.router.State().PhoneArming?
      && t.requested == s.requested && t.announced == s.announced
  {
    var c, src := s.router, Answers(s, local, heard);
    assert c.pending == [] + [SourceStates.Event.StartPtt];
    R.ApplyAllLast(c.(pending := []), [], SourceStates.Event.StartPtt, cfg.router);
    Runs.DecidedKeeps(c, cfg.router);
    Runs.DecisionsKeepGate(c, cfg.router);
    SampleContinuity.ReadsPhoneIff(R.Decided(c, cfg.router), src, cfg.router);
    TickStays(c, src, cfg.router);
  }

  /** A press, its first frames, and the release: the source is ready, and no request has
      been handled. */
  lemma FramesThenRelease(codec: Codec, start: World, cfg: Setup) returns (actions: seq<Action>)
    requires WorldOk(codec, start, cfg) && PressSends(start.phone) && M.Fillable(cfg.jitter)
    ensures AllEnabled(codec, start, actions, cfg)
    ensures var w := Run(codec, start, actions, cfg);
      && PressSends(w.phone) && w.presses == start.presses + 1 && w.emitted == start.emitted
      && w.packed == start.packed + M.FramesToFill(cfg.jitter)
      && (start.service.media.running ==> SourceReady(w.service, cfg))
      && w.service.requested == start.service.requested
      && w.service.router == start.service.router.(lastHeartbeat := w.service.router.lastHeartbeat)
  {
    var w1 := PhoneStep(codec, start, Presses(0));
    PressShape(codec, start, 0);
    PressedWorld(codec, start, 0, cfg);
    RunSnoc(codec, start, [], PhoneActs(Presses(0)), cfg);
    var press := [] + [PhoneActs(Presses(0))];
    var frames := FramesThrough(codec, w1, M.FramesToFill(cfg.jitter), cfg);
    M.FramesFill(w1.service.media, cfg.jitter, w1.sender);
    RunConcat(codec, start, press, frames, cfg);
    actions := press + frames;
    var w2 := Run(codec, start, actions, cfg);
    ReleasedShape(codec, w2, 1);
    PressEmits(codec, start, w1, w2);
    RunSnoc(codec, start, actions, PhoneActs(Releases(1)), cfg);
    actions := actions + [PhoneActs(Releases(1))];
  }

  lemma PressEmits(codec: Codec, start: World, w1: World, w2: World)
    requires w1 == PhoneStep(codec, start, Presses(0)) && PressSends(start.phone) && OnlyMedia(w1, w2)
    ensures w2.emitted == start.emitted && w2.presses == start.presses + 1
    ensures var w3 := PhoneStep(codec, w2, Releases(1));
      w3.emitted == start.emitted && w3.packed == w2.packed && PressSends(w3.phone)
  {
  }

  /** The next press, its request handled: the PC owes an acknowledgement again. */
  lemma PressedAgain(codec: Codec, w: World, cfg: Setup) returns (a: Action)
    requires WorldOk(codec, w, cfg) && PressSends(w.phone)
    ensures var w1 := PhoneStep(codec, w, Presses(2));
      && Enabled(codec, w1, a)
      && var v := Step(codec, w1, a, cfg);
         && v.service == Heard(w.service, StartPtt).0 && v.phone.pressed && v.phone.authenticated
         && v.packed == w.packed && v.presses == w.presses + 1 && v.emitted == w.emitted
  {
    var w1 := PhoneStep(codec, w, Presses(2));
    PressShape(codec, w, 2);
    PressedWorld(codec, w, 2, cfg);
    SentIsServable(codec, w, StartPtt);
    var m := |w.up.link.sent|;
    assert w1.up == SendUp(codec, w, StartPtt).up;
    a := RequestArrives(codec, w1, m, StartPtt, cfg);
    RequestCounts(codec, w1, a, m, cfg);
    RequestQuiet(codec, w1, a, m, cfg);
  }

  lemma RequestQuiet(codec: Codec, w: World, a: Action, n: nat, cfg: Setup)
    requires InboxOk(codec, w.up) && Servable(codec, w.up, n) && KindOf(codec, w.up.link.sent[n]) == Just(StartPtt)
    requires a == ReachPc(ControlTag, Wire(w.up.link, n), 0)
    ensures var w' := Step(codec, w, a, cfg); w'.packed == w.packed && w'.emitted == w.emitted
  {
    ServableCalls(codec, w.up, n);
    PcShape(codec, w, ControlTag, Wire(w.up.link, n), 0, StartPtt, cfg);
  }

  /** A turn in which the router arms and nothing is read. */
  lemma ArmingTurn(codec: Codec, w: World, local: R.Source, heard: R.Samples, cfg: Setup)
    requires Orderly(w.service, cfg) && Owed(w.service) && SourceReady(w.service, cfg) && !local.Failing?
    requires w.service.router.pending == [SourceStates.Event.StartPtt] && w.service.router.gate.position == 1.0
    requires w.service.router.machine == SourceStates.Machine(SourceStates.LocalActive, SourceStates.AutoMode)
    ensures var w1 := TurnStep(codec, w, local, heard, cfg);
      w1 == w.(service := w1.service) && Announces(w1.service, cfg)
  {
    PlainTurn(codec, w, local, heard, cfg);
    ArmingReadsNothing(w.service, local, heard, cfg);
  }

  /** The turn before it leaves the world one in which the acknowledgement is due. */
  lemma ArmedWorld(codec: Codec, w: World, local: R.Source, heard: R.Samples, cfg: Setup) returns (w1: World)
    requires WorldOk(codec, w, cfg) && Owed(w.service) && SourceReady(w.service, cfg) && !local.Failing?
    requires w.service.router.pending == [SourceStates.Event.StartPtt] && w.service.router.gate.position == 1.0
    requires w.service.router.machine == SourceStates.Machine(SourceStates.LocalActive, SourceStates.AutoMode)
    ensures Enabled(codec, w, ServiceTurn(local, heard)) && w1 == Step(codec, w, ServiceTurn(local, heard), cfg)
    ensures WorldOk(codec, w1, cfg) && Announces(w1.service, cfg) && w1 == w.(service := w1.service)
  {
    w1 := Step(codec, w, ServiceTurn(local, heard), cfg);
    ArmingTurn(codec, w, local, heard, cfg);
    StepKeepsWorld(codec, w, ServiceTurn(local, heard), cfg);
  }

  /** A turn that acknowledges. */
  lemma AnnouncingTurn(codec: Codec, w: World, local: R.Source, heard: R.Samples, cfg: Setup) returns (w1: World)
    requires WorldOk(codec, w, cfg) && Announces(w.service, cfg)
    ensures Enabled(codec, w, ServiceTurn(local, heard)) && w1 == Step(codec, w, ServiceTurn(local, heard), cfg)
    ensures
      && UnderWay(codec, w1.down, PttReady) && InboxOk(codec, w1.down)
      && w1.phone == w.phone && w1.emitted == w.emitted + 1 && w1.packed == w.packed && w1.presses == w.presses
  {
    w1 := Step(codec, w, ServiceTurn(local, heard), cfg);
    SentIsUnderWay(codec, w.(service := AfterTurn(w.service, local, heard, cfg)));
    TurnKeeps(codec, w, local, heard, cfg);
  }

  /** Two turns and the arrival, as one run. */
  lemma TurnsThenArrival(codec: Codec, w: World, turn: Action, w1: World, w2: World, cfg: Setup)
      returns (actions: seq<Action>)
    requires Enabled(codec, w, turn) && w1 == Step(codec, w, turn, cfg)
    requires Enabled(codec, w1, turn) && w2 == Step(codec, w1, turn, cfg)
    requires InboxOk(codec, w2.down) && w2.phone.pressed && UnderWay(codec, w2.down, PttReady)
    ensures AllEnabled(codec, w, actions, cfg)
    ensures var v := Run(codec, w, actions, cfg);
      v.phone.ptt.UiLive? && v.emitted == w2.emitted && v.packed == w2.packed && v.presses == w2.presses
  {
    RunTwo(codec, w, turn, turn, w1, w2, cfg);
    var a := ArrivesLive(codec, w2, cfg);
    ArrivalQuiet(codec, w2, a, cfg);
    RunSnoc(codec, w, [] + [turn] + [turn], a, cfg);
    actions := [] + [turn] + [turn] + [a];
  }

  /** The router arms, and the acknowledgement goes out and arrives. */
  lemma TwoTurns(codec: Codec, w: World, local: R.Source, heard: R.Samples, cfg: Setup) returns (actions: seq<Action>)
    requires WorldOk(codec, w, cfg) && Owed(w.service) && SourceReady(w.service, cfg) && !local.Failing?
    requires w.service.router.pending == [SourceStates.Event.StartPtt] && w.service.router.gate.position == 1.0
    requires w.service.router.machine == SourceStates.Machine(SourceStates.LocalActive, SourceStates.AutoMode)
    requires w.phone.pressed
    ensures AllEnabled(codec, w, actions, cfg)
    ensures var v := Run(codec, w, actions, cfg);
      && v.phone.ptt.UiLive? && v.emitted == w.emitted + 1 && v.packed == w.packed && v.presses == w.presses
  {
    var w1 := ArmedWorld(codec, w, local, heard, cfg);
    var w2 := AnnouncingTurn(codec, w1, local, heard, cfg);
    actions := TurnsThenArrival(codec, w, ServiceTurn(local, heard), w1, w2, cfg);
  }

  lemma ArrivalQuiet(codec: Codec, w: World, a: Action, cfg: Setup)
    requires a.ReachPhone?
    ensures var w' := Step(codec, w, a, cfg); w'.emitted == w.emitted && w'.packed == w.packed
  {
  }

  /** With the source ready and nothing requested, a press goes live on what is there. */
  lemma LiveOnWhatIsThere(codec: Codec, w: World, local: R.Source, heard: R.Samples, cfg: Setup)
      returns (actions: seq<Action>)
    requires WorldOk(codec, w, cfg) && PressSends(w.phone) && SourceReady(w.service, cfg) && !local.Failing?
    requires w.service.router.pending == [] && w.service.router.gate.position == 1.0
    requires w.service.router.machine == SourceStates.Machine(SourceStates.LocalActive, SourceStates.AutoMode)
    ensures AllEnabled(codec, w, actions, cfg) && |actions| > 0 && actions[0] == PhoneActs(Presses(2))
    ensures var end := Run(codec, w, actions, cfg);
      && end.phone.ptt.UiLive? && end.packed == w.packed
      && end.presses == w.presses + 1 && end.emitted == w.emitted + 1
  {
    var press := PhoneActs(Presses(2));
    var w1 := PhoneStep(codec, w, Presses(2));
    var a := PressedAgain(codec, w, cfg);
    var v := Step(codec, w1, a, cfg);
    RunTwo(codec, w, press, a, w1, v, cfg);
    EveryRunIsOk(codec, w, [] + [press] + [a], cfg);
    var turns := TwoTurns(codec, v, local, heard, cfg);
    RunConcat(codec, w, [] + [press] + [a], turns, cfg);
    actions := [] + [press] + [a] + turns;
  }

  /** In a fresh epoch a press can be acknowledged and go live although not one frame of it
      has been packed: the buffer is ready on what the released press left. */
  lemma StaleAudioIsReachable(codec: Codec, phone: Phone, sender: M.Sender, key: SessionKey,
                              local: R.Source, heard: R.Samples, cfg: Setup)
      returns (before: seq<Action>, after: seq<Action>)
    requires Faithful(codec) && Coherent(phone) && PressSends(phone) && !local.Failing? && M.Fillable(cfg.jitter)
    ensures AllEnabled(codec, NewEpoch(phone, sender, Started(cfg), key), before + after, cfg)
    ensures |after| > 0 && after[0] == PhoneActs(Presses(2))
    ensures var start := NewEpoch(phone, sender, Started(cfg), key);
      var w, end := Run(codec, start, before, cfg), Run(codec, start, before + after, cfg);
      && PressSends(w.phone) && w.presses == 1 && w.emitted == 0
      && end.presses == 2 && end.emitted == 1 && end.phone.ptt.UiLive? && end.packed == w.packed
  {
    var start := NewEpoch(phone, sender, Started(cfg), key);
    NewEpochIsOk(codec, phone, sender, key, cfg);
    before := FramesThenRelease(codec, start, cfg);
    EveryRunIsOk(codec, start, before, cfg);
    after := LiveOnWhatIsThere(codec, Run(codec, start, before, cfg), local, heard, cfg);
    RunConcat(codec, start, before, after, cfg);
  }
}
