/** The PC's replies to a press and to a release, as the phone sees them: over the two links a
    press that is being prepared leaves the phone connecting, and a release that was handled
    ends releasing (apps/service/main.cpp, apps/phone-core/phone_runtime.cpp). */
module PttReplies {
  import opened Basics
  import opened PeerSessionModel
  import opened LossyDelivery
  import opened SessionDelivery
  import opened PhonePtt
  import opened ServicePtt
  import opened PttChain
  import opened PttAnswers
  import opened PttDeliveries
  import opened PttPresses

  /** A handled message's reply is sealed and can be served. */
  lemma ReplyIsSent(codec: Codec, w: World, n: nat, kind: Kind, reply: Kind, cfg: Setup) returns (a: Action, w': World)
    requires WorldOk(codec, w, cfg) && Servable(codec, w.up, n) && KindOf(codec, w.up.link.sent[n]) == Just(kind)
    requires Heard(w.service, kind).1 == Just(reply)
    ensures Enabled(codec, w, a) && w' == Step(codec, w, a, cfg) && w'.phone == w.phone && InboxOk(codec, w'.down)
    ensures Servable(codec, w'.down, |w.down.link.sent|)
    ensures KindOf(codec, w'.down.link.sent[|w.down.link.sent|]) == Just(reply)
  {
    var p := Wire(w.up.link, n);
    a := ReachPc(ControlTag, p, 0);
    ServableCalls(codec, w.up, n);
    PcShape(codec, w, ControlTag, p, 0, kind, cfg);
    w' := Step(codec, w, a, cfg);
    SealedDown(codec, Handled(codec, w, ControlTag, p, kind), reply);
  }

  lemma SealedDown(codec: Codec, w: World, kind: Kind)
    requires Faithful(codec) && InboxOk(codec, w.down) && Numbered(codec, w.down, w.downNumber)
    ensures var w', n := SendDown(codec, w, kind), |w.down.link.sent|;
      InboxOk(codec, w'.down) && Servable(codec, w'.down, n) && KindOf(codec, w'.down.link.sent[n]) == Just(kind)
  {
    var plain := codec.encode(ControlMessage(kind, w.downNumber + 1));
    NewestOpens(codec, w.down, plain);
    SealingKeeps(codec, w.down, plain);
  }

  /** A servable message reaches the phone. */
  lemma ReplyArrives(codec: Codec, w: World, n: nat, kind: Kind, cfg: Setup) returns (a: Action, w': World)
    requires InboxOk(codec, w.down) && Servable(codec, w.down, n) && KindOf(codec, w.down.link.sent[n]) == Just(kind)
    ensures Enabled(codec, w, a) && w' == Step(codec, w, a, cfg) && w'.phone == Answered(w.phone, kind)
  {
    a := ReachPhone(ControlTag, Wire(w.down.link, n));
    ServableCalls(codec, w.down, n);
    w' := Step(codec, w, a, cfg);
  }

  /** Three actions, given what each leaves. */
  lemma RunThree(codec: Codec, w: World, a: Action, b: Action, c: Action, w1: World, w2: World, w3: World, cfg: Setup)
    requires Enabled(codec, w, a) && w1 == Step(codec, w, a, cfg)
    requires Enabled(codec, w1, b) && w2 == Step(codec, w1, b, cfg)
    requires Enabled(codec, w2, c) && w3 == Step(codec, w2, c, cfg)
    ensures AllEnabled(codec, w, [] + [a] + [b] + [c], cfg) && Run(codec, w, [] + [a] + [b] + [c], cfg) == w3
  {
    RunTwo(codec, w, a, b, w1, w2, cfg);
    RunSnoc(codec, w, [] + [a] + [b], c, cfg);
  }

  lemma ReleaseShape(codec: Codec, w: World, now: nat)
    requires w.phone.authenticated && !w.phone.ptt.UiReady?
    ensures var w1 := PhoneStep(codec, w, Releases(now));
      && w1 == SendUp(codec, w.(phone := w1.phone), StopPtt) && w1.service == w.service
      && w1.phone.ptt.UiReleasing? && !w1.phone.pressed
  {
  }

  /** The reply to a message is the phone's next word. */
  lemma Answer(codec: Codec, w: World, n: nat, kind: Kind, reply: Kind, cfg: Setup) returns (a: Action, b: Action, w1: World, w2: World)
    requires WorldOk(codec, w, cfg) && Servable(codec, w.up, n) && KindOf(codec, w.up.link.sent[n]) == Just(kind)
    requires Heard(w.service, kind).1 == Just(reply)
    ensures Enabled(codec, w, a) && w1 == Step(codec, w, a, cfg) && w1.phone == w.phone
    ensures Enabled(codec, w1, b) && w2 == Step(codec, w1, b, cfg) && w2.phone == Answered(w.phone, reply)
  {
    a, w1 := ReplyIsSent(codec, w, n, kind, reply, cfg);
    b, w2 := ReplyArrives(codec, w1, |w.down.link.sent|, reply, cfg);
  }

  lemma UpServable(codec: Codec, w: World, kind: Kind)
    requires Faithful(codec) && InboxOk(codec, w.up) && Numbered(codec, w.up, w.upNumber)
    ensures var w1, n := SendUp(codec, w, kind), |w.up.link.sent|;
      Servable(codec, w1.up, n) && KindOf(codec, w1.up.link.sent[n]) == Just(kind)
  {
    SentIsServable(codec, w, kind);
  }

  lemma PressServable(codec: Codec, w: World, now: nat)
    requires Faithful(codec) && InboxOk(codec, w.up) && Numbered(codec, w.up, w.upNumber) && PressSends(w.phone)
    ensures var w1, n := PhoneStep(codec, w, Presses(now)), |w.up.link.sent|;
      Servable(codec, w1.up, n) && KindOf(codec, w1.up.link.sent[n]) == Just(StartPtt)
  {
    PressShape(codec, w, now);
    UpServable(codec, w, StartPtt);
  }

  lemma ReleaseServable(codec: Codec, w: World, now: nat)
    requires Faithful(codec) && InboxOk(codec, w.up) && Numbered(codec, w.up, w.upNumber)
    requires w.phone.authenticated && !w.phone.ptt.UiReady?
    ensures var w1, n := PhoneStep(codec, w, Releases(now)), |w.up.link.sent|;
      Servable(codec, w1.up, n) && KindOf(codec, w1.up.link.sent[n]) == Just(StopPtt)
  {
    ReleaseShape(codec, w, now);
    UpServable(codec, w, StopPtt);
  }

  /** Whenever a connected phone that shows anything is released, it shows releasing, and once
      the PC has handled that and its reply has arrived, ready. */
  lemma ReleaseIsAnswered(codec: Codec, w: World, now: nat, cfg: Setup) returns (actions: seq<Action>)
    requires WorldOk(codec, w, cfg) && w.phone.authenticated && !w.phone.ptt.UiReady?
    ensures |actions| == 3 && actions[0] == PhoneActs(Releases(now)) && AllEnabled(codec, w, actions, cfg)
    ensures Step(codec, w, actions[0], cfg).phone.ptt.UiReleasing?
    ensures Run(codec, w, actions, cfg).phone.ptt.UiReady? && !Run(codec, w, actions, cfg).phone.pressed
  {
    var release := PhoneActs(Releases(now));
    var w1 := Step(codec, w, release, cfg);
    ReleaseShape(codec, w, now);
    StepKeepsWorld(codec, w, release, cfg);
    ReleaseServable(codec, w, now);
    var a, b, w2, w3 := Answer(codec, w1, |w.up.link.sent|, StopPtt, PttStopped, cfg);
    RunThree(codec, w, release, a, b, w1, w2, w3, cfg);
    actions := [] + [release] + [a] + [b];
  }

  /** Whenever a press counts, the phone shows connecting, and the PC's reply to the request
      leaves it so. */
  lemma PressIsPrepared(codec: Codec, w: World, now: nat, cfg: Setup) returns (actions: seq<Action>)
    requires WorldOk(codec, w, cfg) && PressSends(w.phone)
    ensures |actions| == 3 && actions[0] == PhoneActs(Presses(now)) && AllEnabled(codec, w, actions, cfg)
    ensures Step(codec, w, actions[0], cfg).phone.ptt.UiConnecting?
    ensures Run(codec, w, actions, cfg).phone == Step(codec, w, actions[0], cfg).phone
  {
    var press := PhoneActs(Presses(now));
    var w1 := Step(codec, w, press, cfg);
    PressShape(codec, w, now);
    StepKeepsWorld(codec, w, press, cfg);
    PressServable(codec, w, now);
    var a, b, w2, w3 := Answer(codec, w1, |w.up.link.sent|, StartPtt, PttPreparing, cfg);
    RunThree(codec, w, press, a, b, w1, w2, w3, cfg);
    actions := [] + [press] + [a] + [b];
  }
}
