/** What leaves the phone's microphone (apps/phone-core/phone_runtime.cpp): frames only while
    the button is held, numbered without a gap, and a marked one first after every press. */
module PttMicrophone {
  import opened Basics
  import opened Encoding
  import opened Pairing
  import opened PeerSessionModel
  import opened LossyDelivery
  import opened SessionDelivery
  import opened PhonePtt
  import opened ServicePtt
  import opened PttChain
  import M = PhoneMedia
  import J = JitterBuffers

  function FrameIn(codec: Codec, plain: Bytes): seq<M.Media> {
    var m := codec.unpack(plain);
    if m.Media? then [m] else []
  }

  /** The microphone frames among what was sealed, in order. */
  function Frames(codec: Codec, sent: seq<Bytes>): seq<M.Media> {
    if sent == [] then [] else Frames(codec, sent[..|sent| - 1]) + FrameIn(codec, sent[|sent| - 1])
  }

  /** All that the phone has sent so far. */
  ghost function Spoken(codec: Codec, w: World): seq<M.Media> {
    Frames(codec, w.up.link.sent)
  }

  lemma FramesAppend(codec: Codec, sent: seq<Bytes>, plain: Bytes)
    ensures Frames(codec, sent + [plain]) == Frames(codec, sent) + FrameIn(codec, plain)
  {
    assert (sent + [plain])[..|sent|] == sent;
  }

  /** Control messages are not frames. */
  lemma TextIsNoFrame(codec: Codec, b: Inbox, kind: Kind, n: nat)
    requires Faithful(codec)
    ensures Frames(codec, Happen(codec, b, Sealing(codec.encode(ControlMessage(kind, n)))).link.sent)
         == Frames(codec, b.link.sent)
  {
    FramesAppend(codec, b.link.sent, codec.encode(ControlMessage(kind, n)));
  }

  lemma ArrivalSendsNothing(codec: Codec, w: World, a: Action, cfg: Setup)
    requires a.ReachPc? || a.ReachPhone? || a.ServiceTurn? || a.ServiceSends?
    ensures var t := Step(codec, w, a, cfg); t.up.link.sent == w.up.link.sent && t.sender == w.sender
  {
  }

  /** What the phone seals when it is handled is a control message. */
  lemma PhoneSendsText(codec: Codec, w: World, a: Action, cfg: Setup)
    requires Faithful(codec) && (a.PhoneActs? || a.PhoneSends?)
    ensures var t := Step(codec, w, a, cfg);
      Spoken(codec, t) == Spoken(codec, w) && t.sender.next == w.sender.next && (w.sender.marker ==> t.sender.marker)
  {
    var kind := if a.PhoneSends? then a.kind else if a.act.Presses? then StartPtt else StopPtt;
    TextIsNoFrame(codec, w.up, kind, w.upNumber + 1);
    assert Step(codec, w, a, cfg).up in {w.up, SendUp(codec, w, kind).up};
  }

  /** The frame that the step sends, if any. */
  function Sends(w: World, a: Action): seq<M.Media> {
    if a.Captures? && a.encoded.Just? && w.phone.pressed && w.phone.authenticated
    then [M.Media.Media(w.sender.marker, true, w.sender.next, w.sender.timestamp, a.encoded.value)]
    else []
  }

  /** A frame leaves the phone exactly when the microphone gives one, it could be encoded, and
      the button is held on an authenticated phone; nothing else that happens sends one. */
  lemma SentExactlyWhileHeld(codec: Codec, w: World, a: Action, cfg: Setup)
    requires Faithful(codec)
    ensures Spoken(codec, Step(codec, w, a, cfg)) == Spoken(codec, w) + Sends(w, a)
  {
    match a
    case PhoneActs(_) => PhoneSendsText(codec, w, a, cfg);
    case PhoneSends(_) => PhoneSendsText(codec, w, a, cfg);
    case Captures(encoded) =>
      if Transmits(w, encoded) {
        FramesAppend(codec, w.up.link.sent, codec.pack(M.PackOne(w.sender, encoded.value, J.FRAME_SAMPLES, true).1));
      }
    case _ => ArrivalSendsNothing(codec, w, a, cfg);
  }

  // ---------------------------------------------------------------- over runs

  ghost predicate NoPress(actions: seq<Action>) {
    forall i | 0 <= i < |actions| :: !(actions[i].PhoneActs? && actions[i].act.Presses?)
  }

  lemma StaysUp(codec: Codec, w: World, a: Action, cfg: Setup)
    requires !w.phone.pressed && !(a.PhoneActs? && a.act.Presses?)
    ensures !Step(codec, w, a, cfg).phone.pressed
  {
  }

  /** Until the button is pressed nothing of the microphone leaves the phone, whatever else
      happens and whatever the PC says. */
  lemma {:induction false} NothingSentUnpressed(codec: Codec, w: World, actions: seq<Action>, cfg: Setup)
    requires Faithful(codec) && !w.phone.pressed && NoPress(actions)
    ensures var end := Run(codec, w, actions, cfg); !end.phone.pressed && Spoken(codec, end) == Spoken(codec, w)
  {
    if actions != [] {
      var front, last := actions[..|actions| - 1], actions[|actions| - 1];
      NothingSentUnpressed(codec, w, front, cfg);
      StaysUp(codec, Run(codec, w, front, cfg), last, cfg);
      SentExactlyWhileHeld(codec, Run(codec, w, front, cfg), last, cfg);
    }
  }

  /** A release ends it. */
  lemma ReleaseSilences(codec: Codec, w: World, now: nat, actions: seq<Action>, cfg: Setup)
    requires Faithful(codec) && NoPress(actions)
    ensures Spoken(codec, Run(codec, Step(codec, w, PhoneActs(Releases(now)), cfg), actions, cfg)) == Spoken(codec, w)
  {
    SentExactlyWhileHeld(codec, w, PhoneActs(Releases(now)), cfg);
    NothingSentUnpressed(codec, Step(codec, w, PhoneActs(Releases(now)), cfg), actions, cfg);
  }

  /** What was sent since `base` frames: numbered from `first` on, and its first frame marked. */
  ghost predicate Spurts(frames: seq<M.Media>, base: seq<M.Media>, first: J.u32, sender: M.Sender) {
    && |base| <= |frames| && frames[..|base|] == base
    && (forall i | |base| <= i < |frames| :: frames[i].Media? && frames[i].key == J.Plus(first, i - |base|))
    && sender.next == J.Plus(first, |frames| - |base|)
    && (if |frames| == |base| then sender.marker else frames[|base|].marker)
  }

  lemma OneMoreFrame(frames: seq<M.Media>, base: seq<M.Media>, first: J.u32, sender: M.Sender, m: M.Media, next: M.Sender)
    requires Spurts(frames, base, first, sender)
    requires m.Media? && m.key == sender.next && m.marker == sender.marker && next.next == J.Succ(sender.next)
    ensures Spurts(frames + [m], base, first, next)
  {
    M.PlusPlus(first, |frames| - |base|, 1);
    assert (frames + [m])[..|base|] == frames[..|base|];
  }

  lemma StepSpurts(codec: Codec, w: World, a: Action, base: seq<M.Media>, first: J.u32, cfg: Setup)
    requires Faithful(codec) && Spurts(Spoken(codec, w), base, first, w.sender)
    ensures var t := Step(codec, w, a, cfg); Spurts(Spoken(codec, t), base, first, t.sender)
  {
    var t := Step(codec, w, a, cfg);
    SentExactlyWhileHeld(codec, w, a, cfg);
    if a.PhoneActs? || a.PhoneSends? {
      PhoneSendsText(codec, w, a, cfg);
    } else if Sends(w, a) != [] {
      OneMoreFrame(Spoken(codec, w), base, first, w.sender, Sends(w, a)[0], t.sender);
    } else if !a.Captures? {
      ArrivalSendsNothing(codec, w, a, cfg);
    }
  }

  lemma {:induction false} RunSpurts(codec: Codec, w: World, actions: seq<Action>, base: seq<M.Media>, first: J.u32, cfg: Setup)
    requires Faithful(codec) && Spurts(Spoken(codec, w), base, first, w.sender)
    ensures var end := Run(codec, w, actions, cfg); Spurts(Spoken(codec, end), base, first, end.sender)
  {
    if actions != [] {
      RunSpurts(codec, w, actions[..|actions| - 1], base, first, cfg);
      StepSpurts(codec, Run(codec, w, actions[..|actions| - 1], cfg), actions[|actions| - 1], base, first, cfg);
    }
  }

  ghost predicate MarkedAndNumbered(after: seq<M.Media>, before: seq<M.Media>, first: J.u32) {
    && |before| <= |after| && after[..|before|] == before
    && (forall i | |before| <= i < |after| :: after[i].Media? && after[i].key == J.Plus(first, i - |before|))
    && (|before| < |after| ==> after[|before|].marker)
  }

  lemma SpurtsMean(frames: seq<M.Media>, base: seq<M.Media>, first: J.u32, sender: M.Sender)
    requires Spurts(frames, base, first, sender)
    ensures MarkedAndNumbered(frames, base, first)
  {
  }

  lemma PressMarks(codec: Codec, w: World, now: nat, cfg: Setup)
    requires Faithful(codec) && w.phone.authenticated && !w.phone.pressed
    ensures var t := Step(codec, w, PhoneActs(Presses(now)), cfg);
      Spurts(Spoken(codec, t), Spoken(codec, w), w.sender.next, t.sender)
  {
    PhoneSendsText(codec, w, PhoneActs(Presses(now)), cfg);
  }

  /** Whatever follows a press that counts: the first frame it sends is marked, so that the PC
      begins anew, and its frames are numbered on from the last without a gap. */
  lemma FirstFrameIsMarked(codec: Codec, w: World, now: nat, actions: seq<Action>, cfg: Setup)
    requires Faithful(codec) && w.phone.authenticated && !w.phone.pressed
    ensures var before := Spoken(codec, w);
      var after := Spoken(codec, Run(codec, Step(codec, w, PhoneActs(Presses(now)), cfg), actions, cfg));
      MarkedAndNumbered(after, before, w.sender.next)
  {
    var pressed := Step(codec, w, PhoneActs(Presses(now)), cfg);
    var end := Run(codec, pressed, actions, cfg);
    PressMarks(codec, w, now, cfg);
    RunSpurts(codec, pressed, actions, Spoken(codec, w), w.sender.next, cfg);
    SpurtsMean(Spoken(codec, end), Spoken(codec, w), w.sender.next, end.sender);
  }

  ghost predicate Holding(w: World) {
    w.phone.pressed && w.phone.authenticated
  }

  function CapturedIn(a: Action): seq<J.Payload> {
    if a.Captures? && a.encoded.Just? then [a.encoded.value] else []
  }

  /** What the microphone gives. */
  function Captured(actions: seq<Action>): seq<J.Payload> {
    if actions == [] then [] else Captured(actions[..|actions| - 1]) + CapturedIn(actions[|actions| - 1])
  }

  function Payloads(frames: seq<M.Media>): seq<J.Payload> {
    if frames == [] then []
    else
      var last := frames[|frames| - 1];
      Payloads(frames[..|frames| - 1]) + if last.Media? then [last.payload] else []
  }

  lemma PayloadsAppend(frames: seq<M.Media>, m: M.Media)
    ensures Payloads(frames + [m]) == Payloads(frames) + if m.Media? then [m.payload] else []
  {
    assert (frames + [m])[..|frames|] == frames;
  }

  /** From `w` to `end` the payloads sent are those given. */
  ghost predicate SentOnly(codec: Codec, w: World, end: World, given: seq<J.Payload>) {
    Payloads(Spoken(codec, end)) == Payloads(Spoken(codec, w)) + given
  }

  lemma FrameOrNone(frames: seq<M.Media>, more: seq<M.Media>, before: seq<J.Payload>, given: seq<J.Payload>,
                    last: seq<J.Payload>)
    requires Payloads(frames) == before + given && |more| == |last| <= 1
    requires |more| == 1 ==> more[0].Media? && last[0] == more[0].payload
    ensures Payloads(frames + more) == before + (given + last)
  {
    if |more| == 1 {
      PayloadsAppend(frames, more[0]);
      assert more == [more[0]] && last == [last[0]];
      assert before + given + last == before + (given + last);
    } else {
      assert frames + more == frames && given + last == given;
    }
  }

  lemma HeldStep(codec: Codec, w: World, mid: World, given: seq<J.Payload>, a: Action, cfg: Setup)
    requires Faithful(codec) && Holding(mid) && SentOnly(codec, w, mid, given)
    ensures SentOnly(codec, w, Step(codec, mid, a, cfg), given + CapturedIn(a))
  {
    SentExactlyWhileHeld(codec, mid, a, cfg);
    FrameOrNone(Spoken(codec, mid), Sends(mid, a), Payloads(Spoken(codec, w)), given, CapturedIn(a));
  }

  ghost predicate HeldThroughout(codec: Codec, w: World, actions: seq<Action>, cfg: Setup) {
    forall i | 0 <= i < |actions| :: Holding(Run(codec, w, actions[..i], cfg))
  }

  lemma HeldBefore(codec: Codec, w: World, actions: seq<Action>, cfg: Setup)
    requires actions != [] && HeldThroughout(codec, w, actions, cfg)
    ensures HeldThroughout(codec, w, actions[..|actions| - 1], cfg)
    ensures Holding(Run(codec, w, actions[..|actions| - 1], cfg))
  {
    var front := actions[..|actions| - 1];
    forall i | 0 <= i < |front| ensures Holding(Run(codec, w, front[..i], cfg)) {
      assert front[..i] == actions[..i];
    }
  }

  /** While the button is held every frame the microphone gives is sent, in order. */
  lemma {:induction false} HeldIsSent(codec: Codec, w: World, actions: seq<Action>, cfg: Setup)
    requires Faithful(codec) && HeldThroughout(codec, w, actions, cfg)
    ensures SentOnly(codec, w, Run(codec, w, actions, cfg), Captured(actions))
  {
    if actions != [] {
      var front, last := actions[..|actions| - 1], actions[|actions| - 1];
      HeldBefore(codec, w, actions, cfg);
      HeldIsSent(codec, w, front, cfg);
      HeldStep(codec, w, Run(codec, w, front, cfg), Captured(front), last, cfg);
    }
  }
}
