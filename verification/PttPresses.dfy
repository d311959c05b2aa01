/** What going live proves to the user who pressed: that the PC has handled a further request,
    and that it has handled the request of this very press. */
module PttPresses {
  import opened Basics
  import opened Encoding
  import opened Pairing
  import opened SecureChannels
  import opened LossyDelivery
  import opened PeerSessionModel
  import opened SessionDelivery
  import opened PhonePtt
  import opened ServicePtt
  import opened PttChain
  import opened PttAnswers
  import opened PttDeliveries
  import SourceStates
  import M = PhoneMedia
  import J = JitterBuffers
  import R = RouterModel
  import Runs = RouterRuns

  // ---------------------------------------------------------------- a further request

  /** Otherwise some continuation makes the phone live although the PC has handled nothing
      since: the answer was meant for an earlier press. */
  lemma StaleAnswer(codec: Codec, w: World, now: nat, local: R.Source, heard: R.Samples, cfg: Setup)
      returns (actions: seq<Action>)
    requires WorldOk(codec, w, cfg) && PressSends(w.phone) && !NothingStale(codec, w, cfg) && !local.Failing?
    ensures var w1 := Step(codec, w, PhoneActs(Presses(now)), cfg);
      && AllEnabled(codec, w1, actions, cfg)
      && var end := Run(codec, w1, actions, cfg);
         && end.phone.ptt.UiLive? && end.handled == w.handled && end.presses == w1.presses
         && ControlsServed(end.up) == ControlsServed(w.up)
  {
    PressShape(codec, w, now);
    PressedWorld(codec, w, now, cfg);
    actions := GoesLive(codec, PhoneStep(codec, w, Presses(now)), local, heard, cfg);
  }

  /** When going live shows that a further request was handled: exactly when at the press no
      acknowledgement is under way and none can be sent without another request. */
  lemma LiveAnswersARequestIff(codec: Codec, w: World, now: nat, cfg: Setup)
    requires WorldOk(codec, w, cfg) && PressSends(w.phone)
    ensures var w1 := Step(codec, w, PhoneActs(Presses(now)), cfg);
      NothingStale(codec, w, cfg) <==>
        forall actions | AllEnabled(codec, w1, actions, cfg) && Run(codec, w1, actions, cfg).phone.ptt.UiLive? ::
          Run(codec, w1, actions, cfg).handled > w.handled
  {
    var w1 := Step(codec, w, PhoneActs(Presses(now)), cfg);
    if NothingStale(codec, w, cfg) {
      forall actions | AllEnabled(codec, w1, actions, cfg) && Run(codec, w1, actions, cfg).phone.ptt.UiLive?
        ensures Run(codec, w1, actions, cfg).handled > w.handled
      {
        LiveAnswersARequest(codec, w, now, actions, cfg);
      }
    } else {
      var actions := StaleAnswer(codec, w, now, R.Absent, R.Silence(), cfg);
    }
  }

  // ---------------------------------------------------------------- the request of this press

  /** A message of the kind sealed as number n0 or later has been acted on. */
  ghost predicate ServedSince(b: Inbox, n0: nat, kind: Kind) {
    exists s :: s in b.served && Serves(s, kind) && s.counter >= n0
  }

  /** One sealed earlier would still be acted on. */
  ghost predicate EarlierUnderWay(codec: Codec, b: Inbox, n0: nat, kind: Kind) {
    exists n: nat :: n < n0 && Servable(codec, b, n) && KindOf(codec, b.link.sent[n]) == Just(kind)
  }

  lemma EarlierSealed(codec: Codec, b: Inbox, plain: Bytes, n0: nat, kind: Kind)
    requires n0 <= |b.link.sent| && !EarlierUnderWay(codec, b, n0, kind)
    ensures !EarlierUnderWay(codec, Happen(codec, b, Sealing(plain)), n0, kind)
  {
    var b' := Happen(codec, b, Sealing(plain));
    forall n: nat | n < n0 && Servable(codec, b', n)
      ensures KindOf(codec, b'.link.sent[n]) != Just(kind)
    {
      assert Servable(codec, b, n);
    }
  }

  lemma EarlierReceived(codec: Codec, b: Inbox, tag: Tag, p: Packet, n0: nat, kind: Kind)
    requires !EarlierUnderWay(codec, b, n0, kind)
    ensures !EarlierUnderWay(codec, Happen(codec, b, Receiving(tag, p)), n0, kind)
  {
    var b' := Happen(codec, b, Receiving(tag, p));
    forall n: nat | n < n0 && Servable(codec, b', n)
      ensures KindOf(codec, b'.link.sent[n]) != Just(kind)
    {
      assert Servable(codec, b, n);
    }
  }

  /** What is called was servable under the datagram's number. */
  lemma CallWasServable(codec: Codec, b: Inbox, tag: Tag, p: Packet, kind: Kind)
    requires InboxOk(codec, b) && Feasible(b.link, Arrive(p)) && IsOf(CallAt(codec, b, tag, p), kind)
    ensures p.Packet? && Servable(codec, b, p.counter) && KindOf(codec, b.link.sent[p.counter]) == Just(kind)
    ensures Served(p.counter, CallAt(codec, b, tag, p)) in Happen(codec, b, Receiving(tag, p)).served
  {
    var n: nat :| n < |b.link.sent| && p.body == Wire(b.link, n).body;
    assert p.counter == n && p.body.plain == b.link.sent[n];
  }

  /** Until a request sealed as n0 or later is handled, nothing answers. */
  ghost predicate Unserved(codec: Codec, w: World, n0: nat, h: nat, cfg: Setup) {
    && n0 <= |w.up.link.sent|
    && (ServedSince(w.up, n0, StartPtt)
        || (w.handled == h && Unanswered(codec, w, h, cfg) && !EarlierUnderWay(codec, w.up, n0, StartPtt)))
  }

  /** What a step does to the up link. */
  lemma UpShape(codec: Codec, w: World, a: Action, cfg: Setup)
    ensures var w' := Step(codec, w, a, cfg);
      if a.ReachPc? then w'.up == Happen(codec, w.up, Receiving(a.tag, a.packet))
      else w'.handled == w.handled
           && (w'.up == w.up || exists plain :: w'.up == Happen(codec, w.up, Sealing(plain)))
  {
    if a.Captures? && Transmits(w, a.encoded) {
      var m := M.PackOne(w.sender, a.encoded.value, J.FRAME_SAMPLES, true).1;
      assert Step(codec, w, a, cfg).up == Happen(codec, w.up, Sealing(codec.pack(m)));
    }
    if a.PhoneActs? || a.PhoneSends? {
      var kind := if a.PhoneSends? then a.kind else if a.act.Presses? then StartPtt else StopPtt;
      assert Step(codec, w, a, cfg).up == w.up
          || Step(codec, w, a, cfg).up == Happen(codec, w.up, Sealing(codec.encode(ControlMessage(kind, w.upNumber + 1))));
    }
  }

  lemma HandledShape(codec: Codec, w: World, tag: Tag, p: Packet, now: nat, cfg: Setup)
    ensures PcStep(codec, w, tag, p, now, cfg).handled
         == w.handled + if IsOf(CallAt(codec, w.up, tag, p), StartPtt) then 1 else 0
  {
  }

  lemma StepUnserved(codec: Codec, w: World, a: Action, n0: nat, h: nat, cfg: Setup)
    requires WorldOk(codec, w, cfg) && Enabled(codec, w, a) && Unserved(codec, w, n0, h, cfg)
    ensures Unserved(codec, Step(codec, w, a, cfg), n0, h, cfg)
  {
    var w' := Step(codec, w, a, cfg);
    UpShape(codec, w, a, cfg);
    if ServedSince(w.up, n0, StartPtt) {
      var s :| s in w.up.served && Serves(s, StartPtt) && s.counter >= n0;
      assert s in w'.up.served;
    } else {
      StepUnanswered(codec, w, a, h, cfg);
      if a.ReachPc? {
        HandledShape(codec, w, a.tag, a.packet, a.now, cfg);
        EarlierReceived(codec, w.up, a.tag, a.packet, n0, StartPtt);
        if IsOf(CallAt(codec, w.up, a.tag, a.packet), StartPtt) {
          CallWasServable(codec, w.up, a.tag, a.packet, StartPtt);
        }
      } else if w'.up != w.up {
        var plain :| w'.up == Happen(codec, w.up, Sealing(plain));
        EarlierSealed(codec, w.up, plain, n0, StartPtt);
      }
    }
  }

  lemma {:induction false} RunUnserved(codec: Codec, w: World, actions: seq<Action>, n0: nat, h: nat, cfg: Setup)
    requires WorldOk(codec, w, cfg) && Unserved(codec, w, n0, h, cfg) && AllEnabled(codec, w, actions, cfg)
    ensures Unserved(codec, Run(codec, w, actions, cfg), n0, h, cfg)
  {
    if actions != [] {
      var front := actions[..|actions| - 1];
      FrontEnabled(codec, w, actions, cfg);
      RunUnserved(codec, w, front, n0, h, cfg);
      EveryRunIsOk(codec, w, front, cfg);
      StepUnserved(codec, Run(codec, w, front, cfg), actions[|actions| - 1], n0, h, cfg);
    }
  }

  /** Nothing that is still to be sealed has been served. */
  lemma NotServedYet(codec: Codec, b: Inbox, kind: Kind)
    requires InboxOk(codec, b)
    ensures !ServedSince(b, |b.link.sent|, kind)
  {
    forall s | s in b.served
      ensures s.counter < |b.link.sent|
    {
      var i :| 0 <= i < |b.served| && b.served[i] == s;
      assert Genuine(codec, b.link.sent, b.served[i]);
    }
  }

  lemma PressUnserved(codec: Codec, w: World, now: nat, cfg: Setup)
    requires WorldOk(codec, w, cfg) && PressSends(w.phone) && NothingStale(codec, w, cfg)
    requires !UnderWay(codec, w.up, StartPtt)
    ensures Unserved(codec, PhoneStep(codec, w, Presses(now)), |w.up.link.sent|, w.handled, cfg)
  {
    PressShape(codec, w, now);
    var plain := codec.encode(ControlMessage(StartPtt, w.upNumber + 1));
    assert !EarlierUnderWay(codec, w.up, |w.up.link.sent|, StartPtt);
    EarlierSealed(codec, w.up, plain, |w.up.link.sent|, StartPtt);
  }

  /** If moreover no earlier request is under way, then in every continuation the phone is
      live only once the PC has handled this press or a later one. */
  lemma LiveAnswersThePress(codec: Codec, w: World, now: nat, actions: seq<Action>, cfg: Setup)
    requires WorldOk(codec, w, cfg) && PressSends(w.phone) && NothingStale(codec, w, cfg)
    requires !UnderWay(codec, w.up, StartPtt)
    requires AllEnabled(codec, Step(codec, w, PhoneActs(Presses(now)), cfg), actions, cfg)
    ensures var end := Run(codec, Step(codec, w, PhoneActs(Presses(now)), cfg), actions, cfg);
      end.phone.ptt.UiLive? ==> ServedSince(end.up, |w.up.link.sent|, StartPtt)
  {
    PressUnserved(codec, w, now, cfg);
    PressedWorld(codec, w, now, cfg);
    RunUnserved(codec, PhoneStep(codec, w, Presses(now)), actions, |w.up.link.sent|, w.handled, cfg);
  }

  // ---------------------------------------------------------------- where it fails

  /** A control message of the right kind arrives: the callback and nothing else. */
  lemma RequestArrives(codec: Codec, w: World, n: nat, kind: Kind, cfg: Setup) returns (a: Action)
    requires InboxOk(codec, w.up) && Servable(codec, w.up, n) && KindOf(codec, w.up.link.sent[n]) == Just(kind)
    ensures a == ReachPc(ControlTag, Wire(w.up.link, n), 0) && Enabled(codec, w, a)
    ensures var w' := Step(codec, w, a, cfg);
      && w'.service == Heard(w.service, kind).0 && w'.phone == w.phone && w'.sender == w.sender
      && ControlsServed(w'.up) == ControlsServed(w.up) + {Served(n, Control(codec.decode(w.up.link.sent[n]).value))}
      && w'.up.link.sent == w.up.link.sent && w'.upNumber == w.upNumber
      && w'.up.link.receiver.accepted == w.up.link.receiver.accepted + {n}
      && w'.up.controls == w.up.controls + {codec.decode(w.up.link.sent[n]).value.number}
  {
    var p := Wire(w.up.link, n);
    a := ReachPc(ControlTag, p, 0);
    ServableCalls(codec, w.up, n);
    PcShape(codec, w, ControlTag, p, 0, kind, cfg);
    ServedGrows(codec, w.up, n);
  }

  lemma ServedGrows(codec: Codec, b: Inbox, n: nat)
    requires InboxOk(codec, b) && Servable(codec, b, n)
    ensures var b' := Happen(codec, b, Receiving(ControlTag, Wire(b.link, n)));
      && ControlsServed(b') == ControlsServed(b) + {Served(n, Control(codec.decode(b.link.sent[n]).value))}
      && b'.link.sent == b.link.sent && b'.link.receiver.accepted == b.link.receiver.accepted + {n}
      && b'.controls == b.controls + {codec.decode(b.link.sent[n]).value.number}
  {
    ServableCalls(codec, b, n);
    var b' := Happen(codec, b, Receiving(ControlTag, Wire(b.link, n)));
    assert b'.served == b.served + [Served(n, Control(codec.decode(b.link.sent[n]).value))];
  }

  /** A request at rest makes an acknowledgement possible again. */
  lemma RequestArms(s: Service, cfg: Setup)
    requires Orderly(s, cfg) && M.Fillable(cfg.jitter)
    requires s.router.machine == SourceStates.Machine(SourceStates.LocalActive, SourceStates.AutoMode)
    requires s.router.pending == []
    ensures MayAnnounce(Heard(s, StartPtt).0, cfg)
  {
    var c := Heard(s, StartPtt).0.router;
    assert c.pending == [] + [SourceStates.Event.StartPtt];
    R.ApplyAllLast(c.(pending := []), [], SourceStates.Event.StartPtt, cfg.router);
  }

  /** Room for one more message before the request n falls out of a window. */
  ghost predicate Room(codec: Codec, b: Inbox, top: nat, n: nat)
    requires n < |b.link.sent| && codec.decode(b.link.sent[n]).Just?
  {
    |b.link.sent| < n + WINDOW && top + 1 < codec.decode(b.link.sent[n]).value.number + CONTROL_WINDOW
  }

  ghost predicate Automatic(s: Service) {
    LastMode(s.router.pending, s.router.machine.mode).AutoMode?
  }

  /** The router waits at the local microphone with nothing queued and nothing to announce. */
  ghost predicate AtRest(s: Service, cfg: Setup) {
    s.router.pending == [] && Runs.Resting(s.router) && !MayAnnounce(s, cfg)
  }

  /** The user selects the automatic mode, and the PC hears it. */
  lemma SelectsAutomatic(codec: Codec, w: World, n: nat, cfg: Setup) returns (actions: seq<Action>)
    requires WorldOk(codec, w, cfg) && !MayAnnounce(w.service, cfg)
    requires Servable(codec, w.up, n) && Room(codec, w.up, w.upNumber, n)
    ensures AllEnabled(codec, w, actions, cfg)
    ensures var w' := Run(codec, w, actions, cfg);
      && Automatic(w'.service) && !MayAnnounce(w'.service, cfg) && w'.phone == w.phone && w'.sender == w.sender
      && Servable(codec, w'.up, n) && w.up.link.sent <= w'.up.link.sent
      && (forall s | s in ControlsServed(w'.up) && Serves(s, StartPtt) :: s in ControlsServed(w.up))
  {
    var kind := SetMode(SourceStates.AutoMode);
    var w1 := SendUp(codec, w, kind);
    SentIsServable(codec, w, kind);
    var a := RequestArrives(codec, w1, |w.up.link.sent|, kind, cfg);
    var v := Step(codec, w1, a, cfg);
    SelectedAutomatic(codec, w, v, n, cfg);
    RunTwo(codec, w, PhoneSends(kind), a, w1, v, cfg);
    actions := [] + [PhoneSends(kind)] + [a];
  }

  /** What that leaves. */
  lemma SelectedAutomatic(codec: Codec, w: World, v: World, n: nat, cfg: Setup)
    requires Faithful(codec) && !MayAnnounce(w.service, cfg) && Servable(codec, w.up, n) && Room(codec, w.up, w.upNumber, n)
    requires Numbered(codec, w.up, w.upNumber)
    requires v.service == Heard(w.service, SetMode(SourceStates.AutoMode)).0
    requires var said := ControlMessage(SetMode(SourceStates.AutoMode), w.upNumber + 1);
      && v.up.link.sent == w.up.link.sent + [codec.encode(said)]
      && v.up.link.receiver.accepted == w.up.link.receiver.accepted + {|w.up.link.sent|}
      && v.up.controls == w.up.controls + {said.number}
      && ControlsServed(v.up) == ControlsServed(w.up) + {Served(|w.up.link.sent|, Control(said))}
    ensures Automatic(v.service) && !MayAnnounce(v.service, cfg) && Servable(codec, v.up, n)
    ensures forall s | s in ControlsServed(v.up) && Serves(s, StartPtt) :: s in ControlsServed(w.up)
  {
    ModeMayAnnounce(w.service, SourceStates.AutoMode, cfg);
    AutomaticNow(w.service);
    StillServable(codec, w.up, v.up, n, |w.up.link.sent|, w.upNumber + 1);
  }

  /** A message just sent up is servable. */
  lemma SentIsServable(codec: Codec, w: World, kind: Kind)
    requires Faithful(codec) && InboxOk(codec, w.up) && Numbered(codec, w.up, w.upNumber)
    ensures var w1, m := SendUp(codec, w, kind), |w.up.link.sent|;
      && InboxOk(codec, w1.up) && Servable(codec, w1.up, m)
      && w1.up.link.sent == w.up.link.sent + [codec.encode(ControlMessage(kind, w.upNumber + 1))]
      && w1.up.controls == w.up.controls && w1.up.link.receiver.accepted == w.up.link.receiver.accepted
      && ControlsServed(w1.up) == ControlsServed(w.up)
  {
    var plain := codec.encode(ControlMessage(kind, w.upNumber + 1));
    NewestOpens(codec, w.up, plain);
    SealingKeeps(codec, w.up, plain);
  }

  lemma AutomaticNow(s: Service)
    ensures Automatic(Heard(s, SetMode(SourceStates.AutoMode)).0)
  {
    var c := Heard(s, SetMode(SourceStates.AutoMode)).0.router;
    assert c.pending[|c.pending| - 1] == SourceStates.ModeAuto;
  }

  lemma StillServable(codec: Codec, b: Inbox, b': Inbox, n: nat, m: nat, number: nat)
    requires Servable(codec, b, n) && b.link.sent <= b'.link.sent && n < m < n + WINDOW
    requires number != codec.decode(b.link.sent[n]).value.number
    requires number < codec.decode(b.link.sent[n]).value.number + CONTROL_WINDOW
    requires b'.link.receiver.accepted == b.link.receiver.accepted + {m} && b'.controls == b.controls + {number}
    ensures Servable(codec, b', n)
  {
    assert b'.link.sent[n] == b.link.sent[n];
  }

  /** From rest in automatic mode, an earlier request makes the phone live. */
  lemma EarlierGoesLive(codec: Codec, w: World, n: nat, local: R.Source, heard: R.Samples, cfg: Setup)
      returns (actions: seq<Action>)
    requires WorldOk(codec, w, cfg) && AtRest(w.service, cfg) && w.service.router.machine.mode.AutoMode?
    requires M.Fillable(cfg.jitter) && !local.Failing?
    requires w.phone.pressed && w.phone.authenticated && w.sender.marker
    requires Servable(codec, w.up, n) && KindOf(codec, w.up.link.sent[n]) == Just(StartPtt)
    ensures AllEnabled(codec, w, actions, cfg)
    ensures var end := Run(codec, w, actions, cfg);
      && end.phone.ptt.UiLive?
      && (forall s | s in ControlsServed(end.up) && Serves(s, StartPtt) :: s in ControlsServed(w.up) || s.counter == n)
  {
    var a := RequestArrives(codec, w, n, StartPtt, cfg);
    RunSnoc(codec, w, [], a, cfg);
    actions := [] + [a];
    var v := Run(codec, w, actions, cfg);
    RequestArms(w.service, cfg);
    EveryRunIsOk(codec, w, actions, cfg);
    var more := GoesLive(codec, v, local, heard, cfg);
    RunConcat(codec, w, actions, more, cfg);
    actions := actions + more;
  }

  /** The states in which an earlier request still under way can answer the next press: the
      events waiting leave the automatic mode, or one more message can precede it. */
  ghost predicate DelayedCanAnswer(codec: Codec, w: World, n: nat, cfg: Setup) {
    && Servable(codec, w.up, n) && KindOf(codec, w.up.link.sent[n]) == Just(StartPtt) && M.Fillable(cfg.jitter)
    && (Automatic(w.service)
        || (|w.up.link.sent| + 1 < n + WINDOW
            && w.upNumber + 2 < codec.decode(w.up.link.sent[n]).value.number + CONTROL_WINDOW))
  }

  lemma PressKeepsServable(codec: Codec, w: World, now: nat, n: nat)
    requires PressSends(w.phone) && Servable(codec, w.up, n)
    ensures Servable(codec, PhoneStep(codec, w, Presses(now)).up, n)
    ensures var w1 := PhoneStep(codec, w, Presses(now));
      && w1.up.link.sent[n] == w.up.link.sent[n] && |w1.up.link.sent| == |w.up.link.sent| + 1
      && ControlsServed(w1.up) == ControlsServed(w.up)
  {
    PressShape(codec, w, now);
  }

  /** From a pressed phone: rest, the automatic mode if need be, and the earlier request. */
  lemma DelayedGoesLive(codec: Codec, w: World, n: nat, local: R.Source, heard: R.Samples, cfg: Setup)
      returns (actions: seq<Action>)
    requires WorldOk(codec, w, cfg) && !MayAnnounce(w.service, cfg) && M.Fillable(cfg.jitter) && !local.Failing?
    requires w.phone.pressed && w.phone.authenticated && w.sender.marker
    requires Servable(codec, w.up, n) && KindOf(codec, w.up.link.sent[n]) == Just(StartPtt)
    requires Automatic(w.service) || Room(codec, w.up, w.upNumber, n)
    ensures AllEnabled(codec, w, actions, cfg)
    ensures var end := Run(codec, w, actions, cfg);
      && end.phone.ptt.UiLive?
      && (forall s | s in ControlsServed(end.up) && Serves(s, StartPtt) :: s in ControlsServed(w.up) || s.counter == n)
  {
    actions := [];
    if !Automatic(w.service) {
      actions := SelectsAutomatic(codec, w, n, cfg);
    }
    EveryRunIsOk(codec, w, actions, cfg);
    var u := Run(codec, w, actions, cfg);
    var rest := Rests(codec, u, local, heard, cfg);
    RunConcat(codec, w, actions, rest, cfg);
    actions := actions + rest;
    EveryRunIsOk(codec, w, actions, cfg);
    var v := Run(codec, w, actions, cfg);
    var live := EarlierGoesLive(codec, v, n, local, heard, cfg);
    RunConcat(codec, w, actions, live, cfg);
    actions := actions + live;
  }

  /** Then some continuation makes the phone live although neither this press nor a later one
      has been handled. */
  lemma DelayedRequestAnswers(codec: Codec, w: World, now: nat, n: nat, local: R.Source, heard: R.Samples, cfg: Setup)
      returns (actions: seq<Action>)
    requires WorldOk(codec, w, cfg) && PressSends(w.phone) && NothingStale(codec, w, cfg) && !local.Failing?
    requires DelayedCanAnswer(codec, w, n, cfg)
    ensures var w1 := Step(codec, w, PhoneActs(Presses(now)), cfg);
      && AllEnabled(codec, w1, actions, cfg)
      && var end := Run(codec, w1, actions, cfg);
         end.phone.ptt.UiLive? && !ServedSince(end.up, |w.up.link.sent|, StartPtt)
  {
    var w1 := PhoneStep(codec, w, Presses(now));
    PressShape(codec, w, now);
    PressedWorld(codec, w, now, cfg);
    PressKeepsServable(codec, w, now, n);
    actions := DelayedGoesLive(codec, w1, n, local, heard, cfg);
    OnlyEarlierServed(codec, w.up, Run(codec, w1, actions, cfg).up, n);
  }

  lemma OnlyEarlierServed(codec: Codec, b: Inbox, end: Inbox, n: nat)
    requires InboxOk(codec, b) && n < |b.link.sent|
    requires forall s | s in ControlsServed(end) && Serves(s, StartPtt) :: s in ControlsServed(b) || s.counter == n
    ensures !ServedSince(end, |b.link.sent|, StartPtt)
  {
    NotServedYet(codec, b, StartPtt);
    forall s | s in end.served && Serves(s, StartPtt)
      ensures s.counter < |b.link.sent|
    {
      assert s in ControlsServed(end);
    }
  }

  /** Live says that this press or a later one was handled, in every continuation. */
  ghost predicate LiveMeansHandled(codec: Codec, w: World, now: nat, cfg: Setup) {
    var w1 := Step(codec, w, PhoneActs(Presses(now)), cfg);
    forall actions | AllEnabled(codec, w1, actions, cfg) && Run(codec, w1, actions, cfg).phone.ptt.UiLive? ::
      ServedSince(Run(codec, w1, actions, cfg).up, |w.up.link.sent|, StartPtt)
  }

  /** So it does when nothing stale is about and no earlier request is under way; and it does
      not when something stale is, or an earlier request can still be answered. */
  lemma LiveMeansHandledWhen(codec: Codec, w: World, now: nat, cfg: Setup)
    requires WorldOk(codec, w, cfg) && PressSends(w.phone)
    ensures NothingStale(codec, w, cfg) && !UnderWay(codec, w.up, StartPtt) ==> LiveMeansHandled(codec, w, now, cfg)
    ensures !NothingStale(codec, w, cfg) || (exists n: nat :: DelayedCanAnswer(codec, w, n, cfg)) ==>
              !LiveMeansHandled(codec, w, now, cfg)
  {
    var w1 := Step(codec, w, PhoneActs(Presses(now)), cfg);
    if !NothingStale(codec, w, cfg) {
      var actions := StaleAnswer(codec, w, now, R.Absent, R.Silence(), cfg);
      NotServedYet(codec, w.up, StartPtt);
      SameControls(w.up, Run(codec, w1, actions, cfg).up, |w.up.link.sent|);
    } else if n: nat :| DelayedCanAnswer(codec, w, n, cfg) {
      var actions := DelayedRequestAnswers(codec, w, now, n, R.Absent, R.Silence(), cfg);
    } else if !UnderWay(codec, w.up, StartPtt) {
      forall actions | AllEnabled(codec, w1, actions, cfg) && Run(codec, w1, actions, cfg).phone.ptt.UiLive?
        ensures ServedSince(Run(codec, w1, actions, cfg).up, |w.up.link.sent|, StartPtt)
      {
        LiveAnswersThePress(codec, w, now, actions, cfg);
      }
    }
  }

  lemma SameControls(b: Inbox, end: Inbox, n0: nat)
    requires ControlsServed(end) == ControlsServed(b) && !ServedSince(b, n0, StartPtt)
    ensures !ServedSince(end, n0, StartPtt)
  {
    forall s | s in end.served && Serves(s, StartPtt)
      ensures s.counter < n0
    {
      assert s in ControlsServed(b);
    }
  }

  // ---------------------------------------------------------------- runs of a fresh epoch

  /** A press, and its request handled. */
  lemma PressedAndHandled(codec: Codec, start: World, cfg: Setup) returns (actions: seq<Action>)
    requires WorldOk(codec, start, cfg) && PressSends(start.phone)
    requires start.up == FreshInbox(start.up.link.sender.key, PhoneToPc)
    ensures AllEnabled(codec, start, actions, cfg)
    ensures var w := Run(codec, start, actions, cfg);
      && w.service == Heard(start.service, StartPtt).0 && w.phone.pressed && w.phone.authenticated
      && w.presses == start.presses + 1 && w.handled == start.handled + 1
  {
    var w1 := PhoneStep(codec, start, Presses(0));
    PressShape(codec, start, 0);
    PressedWorld(codec, start, 0, cfg);
    FirstRequestServable(codec, start, w1);
    var a := RequestArrives(codec, w1, 0, StartPtt, cfg);
    RequestCounts(codec, w1, a, 0, cfg);
    RunTwo(codec, start, PhoneActs(Presses(0)), a, w1, Step(codec, w1, a, cfg), cfg);
    actions := [] + [PhoneActs(Presses(0))] + [a];
  }

  lemma RequestCounts(codec: Codec, w: World, a: Action, n: nat, cfg: Setup)
    requires InboxOk(codec, w.up) && Servable(codec, w.up, n) && KindOf(codec, w.up.link.sent[n]) == Just(StartPtt)
    requires a == ReachPc(ControlTag, Wire(w.up.link, n), 0)
    ensures var w' := Step(codec, w, a, cfg); w'.handled == w.handled + 1 && w'.presses == w.presses
  {
    ServableCalls(codec, w.up, n);
    PcShape(codec, w, ControlTag, Wire(w.up.link, n), 0, StartPtt, cfg);
  }

  /** Then a turn, in which the router arms, and the release. */
  lemma TurnedAndReleased(codec: Codec, w: World, local: R.Source, heard: R.Samples, cfg: Setup)
      returns (actions: seq<Action>)
    requires w.service == Heard(Started(cfg), StartPtt).0 && !local.Failing? && M.Fillable(cfg.jitter)
    ensures AllEnabled(codec, w, actions, cfg)
    ensures var v := Run(codec, w, actions, cfg);
      && v.presses == w.presses && v.handled == w.handled && MayAnnounce(v.service, cfg)
      && !v.phone.pressed && v.phone.authenticated == w.phone.authenticated
  {
    ArmedByTurn(codec, w, local, heard, cfg);
    var w1 := TurnStep(codec, w, local, heard, cfg);
    ReleasedShape(codec, w1, 1);
    RunTwo(codec, w, ServiceTurn(local, heard), PhoneActs(Releases(1)), w1, PhoneStep(codec, w1, Releases(1)), cfg);
    actions := [] + [ServiceTurn(local, heard)] + [PhoneActs(Releases(1))];
  }

  /** Both together, from a fresh epoch. */
  lemma ArmedThenReleased(codec: Codec, phone: Phone, sender: M.Sender, key: SessionKey,
                          local: R.Source, heard: R.Samples, cfg: Setup) returns (actions: seq<Action>)
    requires Faithful(codec) && Coherent(phone) && PressSends(phone) && !local.Failing? && M.Fillable(cfg.jitter)
    ensures AllEnabled(codec, NewEpoch(phone, sender, Started(cfg), key), actions, cfg)
    ensures var w := Run(codec, NewEpoch(phone, sender, Started(cfg), key), actions, cfg);
      && w.presses == 1 && w.handled == 1 && PressSends(w.phone) && MayAnnounce(w.service, cfg)
  {
    var start := NewEpoch(phone, sender, Started(cfg), key);
    NewEpochIsOk(codec, phone, sender, key, cfg);
    actions := PressedAndHandled(codec, start, cfg);
    var more := TurnedAndReleased(codec, Run(codec, start, actions, cfg), local, heard, cfg);
    RunConcat(codec, start, actions, more, cfg);
    actions := actions + more;
  }

  lemma ArmedByTurn(codec: Codec, w: World, local: R.Source, heard: R.Samples, cfg: Setup)
    requires w.service == Heard(Started(cfg), StartPtt).0 && !local.Failing? && M.Fillable(cfg.jitter)
    ensures var w' := TurnStep(codec, w, local, heard, cfg);
      w' == w.(service := w'.service) && MayAnnounce(w'.service, cfg)
  {
    FirstPressArms(local, heard, cfg);
    PlainTurn(codec, w, local, heard, cfg);
  }

  lemma ReleasedShape(codec: Codec, w: World, now: nat)
    ensures var w' := PhoneStep(codec, w, Releases(now));
      && w'.service == w.service && w'.presses == w.presses && w'.handled == w.handled
      && !w'.phone.pressed && w'.phone.authenticated == w.phone.authenticated
  {
  }

  lemma FirstRequestServable(codec: Codec, start: World, w1: World)
    requires Faithful(codec) && PressSends(start.phone) && w1 == PhoneStep(codec, start, Presses(0))
    requires start.up == FreshInbox(start.up.link.sender.key, PhoneToPc)
    ensures Servable(codec, w1.up, 0) && KindOf(codec, w1.up.link.sent[0]) == Just(StartPtt)
  {
    assert w1.up.link.sent[0] == codec.encode(ControlMessage(StartPtt, start.upNumber + 1));
  }

  /** The first condition can fail in a fresh epoch: the acknowledgement of the first request
      answers the second press. */
  lemma StalePressIsReachable(codec: Codec, phone: Phone, sender: M.Sender, key: SessionKey,
                              local: R.Source, heard: R.Samples, cfg: Setup) returns (actions: seq<Action>)
    requires Faithful(codec) && Coherent(phone) && PressSends(phone) && !local.Failing? && M.Fillable(cfg.jitter)
    ensures AllEnabled(codec, NewEpoch(phone, sender, Started(cfg), key), actions, cfg)
    ensures var end := Run(codec, NewEpoch(phone, sender, Started(cfg), key), actions, cfg);
      end.phone.ptt.UiLive? && end.presses == 2 && end.handled == 1
  {
    var start := NewEpoch(phone, sender, Started(cfg), key);
    actions := ArmedThenReleased(codec, phone, sender, key, local, heard, cfg);
    NewEpochIsOk(codec, phone, sender, key, cfg);
    EveryRunIsOk(codec, start, actions, cfg);
    var w := Run(codec, start, actions, cfg);
    var rest := StaleAnswer(codec, w, 2, local, heard, cfg);
    PressShape(codec, w, 2);
    RunSnoc(codec, start, actions, PhoneActs(Presses(2)), cfg);
    RunConcat(codec, start, actions + [PhoneActs(Presses(2))], rest, cfg);
    actions := actions + [PhoneActs(Presses(2))] + rest;
  }

  /** Press and release, and nothing arrives. */
  lemma PressedAndReleased(codec: Codec, phone: Phone, sender: M.Sender, key: SessionKey, cfg: Setup)
      returns (actions: seq<Action>)
    requires Faithful(codec) && Coherent(phone) && PressSends(phone) && M.Fillable(cfg.jitter)
    ensures actions == [] + [PhoneActs(Presses(0))] + [PhoneActs(Releases(1))]
    ensures AllEnabled(codec, NewEpoch(phone, sender, Started(cfg), key), actions, cfg)
    ensures var w := Run(codec, NewEpoch(phone, sender, Started(cfg), key), actions, cfg);
      && |w.up.link.sent| == 2 && PressSends(w.phone) && w.up.served == []
      && NothingStale(codec, w, cfg) && DelayedCanAnswer(codec, w, 0, cfg)
  {
    var start := NewEpoch(phone, sender, Started(cfg), key);
    RunSnoc(codec, start, [], PhoneActs(Presses(0)), cfg);
    RunSnoc(codec, start, [] + [PhoneActs(Presses(0))], PhoneActs(Releases(1)), cfg);
    actions := [] + [PhoneActs(Presses(0))] + [PhoneActs(Releases(1))];
    var w1 := PhoneStep(codec, start, Presses(0));
    FirstRequestServable(codec, start, w1);
    var w := Run(codec, start, actions, cfg);
    assert w.up.link.sent[0] == w1.up.link.sent[0];
    assert Servable(codec, w.up, 0);
  }

  /** The second condition can fail in a fresh epoch too: press, release and press again, and
      the first request, delayed, is handled and answers the second press. */
  lemma DelayedPressIsReachable(codec: Codec, phone: Phone, sender: M.Sender, key: SessionKey,
                                local: R.Source, heard: R.Samples, cfg: Setup)
      returns (before: seq<Action>, after: seq<Action>)
    requires Faithful(codec) && Coherent(phone) && PressSends(phone) && !local.Failing? && M.Fillable(cfg.jitter)
    ensures before == [] + [PhoneActs(Presses(0))] + [PhoneActs(Releases(1))]
    ensures AllEnabled(codec, NewEpoch(phone, sender, Started(cfg), key), before + [PhoneActs(Presses(2))] + after, cfg)
    ensures var w := Run(codec, NewEpoch(phone, sender, Started(cfg), key), before, cfg);
      NothingStale(codec, w, cfg) && |w.up.link.sent| == 2
    ensures var end := Run(codec, NewEpoch(phone, sender, Started(cfg), key), before + [PhoneActs(Presses(2))] + after, cfg);
      end.phone.ptt.UiLive? && !ServedSince(end.up, 2, StartPtt)
  {
    var start := NewEpoch(phone, sender, Started(cfg), key);
    before := PressedAndReleased(codec, phone, sender, key, cfg);
    NewEpochIsOk(codec, phone, sender, key, cfg);
    EveryRunIsOk(codec, start, before, cfg);
    after := DelayedFrom(codec, start, before, local, heard, cfg);
  }

  /** After such a run, the press and what follows it. */
  lemma DelayedFrom(codec: Codec, start: World, before: seq<Action>, local: R.Source, heard: R.Samples, cfg: Setup)
      returns (after: seq<Action>)
    requires AllEnabled(codec, start, before, cfg) && !local.Failing?
    requires var w := Run(codec, start, before, cfg);
      && WorldOk(codec, w, cfg) && PressSends(w.phone) && NothingStale(codec, w, cfg) && DelayedCanAnswer(codec, w, 0, cfg)
      && |w.up.link.sent| == 2
    ensures AllEnabled(codec, start, before + [PhoneActs(Presses(2))] + after, cfg)
    ensures var end := Run(codec, start, before + [PhoneActs(Presses(2))] + after, cfg);
      end.phone.ptt.UiLive? && !ServedSince(end.up, 2, StartPtt)
  {
    var press := PhoneActs(Presses(2));
    after := DelayedRequestAnswers(codec, Run(codec, start, before, cfg), 2, 0, local, heard, cfg);
    RunSnoc(codec, start, before, press, cfg);
    RunConcat(codec, start, before + [press], after, cfg);
  }
}
