/** Which press an answer belongs to.  An acknowledgement names neither the press nor the
    request it answers.  This module says when none is left that answers a request handled
    so far; going live then shows that the PC has handled a further one. */
module PttAnswers {
  import opened Basics
  import opened Encoding
  import opened Pairing
  import opened ReplayWindows
  import opened SecureChannels
  import opened LossyDelivery
  import opened PeerSessionModel
  import opened SessionDelivery
  import opened PhonePtt
  import opened ServicePtt
  import opened PttChain
  import SourceStates
  import M = PhoneMedia
  import J = JitterBuffers
  import R = RouterModel

  /** A sealed message that would still be acted on if it arrived now. */
  ghost predicate Servable(codec: Codec, b: Inbox, n: nat) {
    && n < |b.link.sent|
    && Fresh(WINDOW, b.link.receiver.accepted, n)
    && NewControl(codec, b, n)
  }

  ghost predicate UnderWay(codec: Codec, b: Inbox, kind: Kind) {
    exists n: nat :: Servable(codec, b, n) && KindOf(codec, b.link.sent[n]) == Just(kind)
  }

  /** An acknowledgement can still be sent without another request: the router is arming or
      what waits in its queue makes it, and the phone source can get ready. */
  predicate MayAnnounce(s: Service, cfg: Setup) {
    && Owed(s) && s.media.running && M.Fillable(cfg.jitter)
    && (s.router.State().PhoneArming? || R.Decided(s.router, cfg.router).State().PhoneArming?)
  }

  /** Nothing is left of earlier presses that could be acknowledged without another request. */
  ghost predicate NothingStale(codec: Codec, w: World, cfg: Setup) {
    !UnderWay(codec, w.down, PttReady) && !MayAnnounce(w.service, cfg)
  }

  // ---------------------------------------------------------------- enough

  lemma SealedUnderWay(codec: Codec, b: Inbox, plain: Bytes, kind: Kind)
    requires !UnderWay(codec, b, kind) && KindOf(codec, plain) != Just(kind)
    ensures !UnderWay(codec, Happen(codec, b, Sealing(plain)), kind)
  {
    var b' := Happen(codec, b, Sealing(plain));
    forall n: nat | Servable(codec, b', n)
      ensures KindOf(codec, b'.link.sent[n]) != Just(kind)
    {
      if n < |b.link.sent| {
        assert Servable(codec, b, n);
      }
    }
  }

  lemma ReceivedUnderWay(codec: Codec, b: Inbox, tag: Tag, p: Packet, kind: Kind)
    requires !UnderWay(codec, b, kind)
    ensures !UnderWay(codec, Happen(codec, b, Receiving(tag, p)), kind)
  {
    var b' := Happen(codec, b, Receiving(tag, p));
    forall n: nat | Servable(codec, b', n)
      ensures KindOf(codec, b'.link.sent[n]) != Just(kind)
    {
      assert Servable(codec, b, n);
    }
  }

  lemma CallWasUnderWay(codec: Codec, b: Inbox, tag: Tag, p: Packet, kind: Kind)
    requires InboxOk(codec, b) && Feasible(b.link, Arrive(p)) && IsOf(CallAt(codec, b, tag, p), kind)
    ensures UnderWay(codec, b, kind)
  {
    var n: nat :| n < |b.link.sent| && p.body == Wire(b.link, n).body;
    assert p.counter == n && p.body.plain == b.link.sent[n];
    assert Servable(codec, b, n);
  }

  /** With the requests handled still at `h`, nothing answers. */
  ghost predicate Unanswered(codec: Codec, w: World, h: nat, cfg: Setup) {
    w.handled >= h && (w.handled == h ==> NothingStale(codec, w, cfg) && !w.phone.ptt.UiLive?)
  }

  lemma OnlyReadyMakesLive(p: Phone, act: PhoneAct)
    requires !act.Hears? && !p.ptt.UiLive?
    ensures !Act(p, act).ptt.UiLive?
  {
  }

  lemma {:induction false} ApplyAllWaits(c: R.Control, events: seq<SourceStates.Event>, cfg: R.Config)
    ensures R.ApplyAll(c, events, cfg).pending == c.pending
    decreases |events|
  {
    if events != [] {
      ApplyAllWaits(R.ApplyEvent(c, events[0], cfg), events[1..], cfg);
    }
  }

  /** A turn leaves nothing waiting. */
  lemma TickClears(c: R.Control, src: R.Sources, cfg: R.Config)
    ensures R.Tick(c, src, cfg).pending == []
  {
    ApplyAllWaits(c.(pending := []), c.pending, cfg);
    ReadingWaits(R.Decided(c, cfg), src, cfg);
    var m := R.Mixed(c, src, cfg);
    R.TickStages(c, m, m.(frame := m.frame + 1), src, cfg);
  }

  lemma ReadingWaits(d: R.Control, src: R.Sources, cfg: R.Config)
    ensures R.AfterMix(R.AfterSources(d, src, cfg)).pending == d.pending
  {
  }

  lemma TickDecided(c: R.Control, src: R.Sources, cfg: R.Config)
    ensures R.Decided(R.Tick(c, src, cfg), cfg).State().PhoneArming? ==> R.Tick(c, src, cfg).State().PhoneArming?
  {
    TickClears(c, src, cfg);
    DecidedIdle(R.Tick(c, src, cfg), cfg);
  }

  lemma DecidedIdle(c: R.Control, cfg: R.Config)
    requires c.pending == []
    ensures R.Decided(c, cfg).State().PhoneArming? ==> c.State().PhoneArming?
  {
  }

  /** A sound buffer that is ready was fillable. */
  lemma ReadyWasFillable(b: J.Buffer, cfg: J.Config)
    requires J.Inv(b, cfg) && J.Ready(b, cfg)
    ensures M.Fillable(cfg)
  {
  }

  lemma TurnMayAnnounce(s: Service, local: R.Source, heard: R.Samples, cfg: Setup)
    requires Orderly(s, cfg) && !MayAnnounce(s, cfg)
    ensures !Announces(s, cfg) && !MayAnnounce(AfterTurn(s, local, heard, cfg), cfg)
  {
    if SourceReady(s, cfg) {
      ReadyWasFillable(s.media.buffer, cfg.jitter);
    }
    if Owed(s) {
      TickStays(s.router, Answers(s, local, heard), cfg.router);
      TickDecided(s.router, Answers(s, local, heard), cfg.router);
    } else {
      TurnFlags(s, local, heard, cfg);
    }
  }

  /** A mode change ends what was waiting. */
  lemma ModeMayAnnounce(s: Service, m: SourceStates.RoutingMode, cfg: Setup)
    requires !MayAnnounce(s, cfg)
    ensures !MayAnnounce(Heard(s, SetMode(m)).0, cfg)
  {
    var c := Heard(s, SetMode(m)).0.router;
    var front := c.pending[..|c.pending| - 1];
    assert c.pending == front + [R.ModeEvent(m)];
    ModeRests(c, front, m, cfg.router);
  }

  /** After a mode event the router rests in its mode. */
  lemma ModeRests(c: R.Control, front: seq<SourceStates.Event>, m: SourceStates.RoutingMode, cfg: R.Config)
    requires c.pending == front + [R.ModeEvent(m)]
    ensures !R.Decided(c, cfg).State().PhoneArming?
  {
    R.ApplyAllLast(c.(pending := []), front, R.ModeEvent(m), cfg);
    var before := R.ApplyAll(c.(pending := []), front, cfg);
    R.ApplyEventIs(before, SourceStates.Step(before.machine, R.ModeEvent(m)), R.ModeEvent(m), cfg);
    assert R.Drain(c, cfg).State() == SourceStates.RestingState(m);
    NotByTimers(R.Drain(c, cfg), cfg);
  }

  lemma NotByTimers(d: R.Control, cfg: R.Config)
    requires !d.State().PhoneArming?
    ensures !R.Timers(d, cfg).State().PhoneArming?
  {
  }

  /** Of the control messages only a request can make an acknowledgement possible. */
  lemma HeardMayAnnounce(s: Service, kind: Kind, cfg: Setup)
    requires !MayAnnounce(s, cfg) && !kind.StartPtt?
    ensures !MayAnnounce(Heard(s, kind).0, cfg)
  {
    match kind
    case SetMode(m) => ModeMayAnnounce(s, m, cfg);
    case _ =>
  }

  /** Media moves the liveness stamp, which arming does not look at. */
  lemma MediaMayAnnounce(s: Service, m: M.Media, now: nat, cfg: Setup)
    requires !MayAnnounce(s, cfg)
    ensures !MayAnnounce(Fed(s, m, now, cfg), cfg)
  {
    var c, d := s.router, R.Issue(s.router, R.NotifyHeartbeat);
    ApplyAllStamp(c.(pending := []), c.pending, c.frame, cfg.router);
    assert R.Drain(d, cfg.router) == R.Drain(c, cfg.router).(lastHeartbeat := c.frame);
    SourceRuns(s.media, m, now, cfg.jitter);
  }

  lemma SourceRuns(s: M.Source, m: M.Media, now: nat, cfg: J.Config)
    ensures M.OnMedia(s, cfg, m, now).running == s.running
  {
  }

  lemma {:induction false} ApplyAllStamp(c: R.Control, events: seq<SourceStates.Event>, t: nat, cfg: R.Config)
    ensures R.ApplyAll(c.(lastHeartbeat := t), events, cfg) == R.ApplyAll(c, events, cfg).(lastHeartbeat := t)
    decreases |events|
  {
    if events != [] {
      ApplyAllStamp(R.ApplyEvent(c, events[0], cfg), events[1..], t, cfg);
      assert R.ApplyEvent(c.(lastHeartbeat := t), events[0], cfg) == R.ApplyEvent(c, events[0], cfg).(lastHeartbeat := t);
    }
  }

  // every step keeps it

  lemma PhoneUnanswered(codec: Codec, w: World, act: PhoneAct, h: nat, cfg: Setup)
    requires Unanswered(codec, w, h, cfg) && !act.Hears?
    ensures Unanswered(codec, PhoneStep(codec, w, act), h, cfg)
  {
    var w' := PhoneStep(codec, w, act);
    assert w'.down == w.down && w'.service == w.service && w'.handled == w.handled;
    if w.handled == h {
      OnlyReadyMakesLive(w.phone, act);
    }
  }

  lemma TurnUnanswered(codec: Codec, w: World, local: R.Source, heard: R.Samples, h: nat, cfg: Setup)
    requires Unanswered(codec, w, h, cfg) && Orderly(w.service, cfg)
    ensures Unanswered(codec, TurnStep(codec, w, local, heard, cfg), h, cfg)
  {
    if w.handled == h {
      TurnMayAnnounce(w.service, local, heard, cfg);
    }
  }

  lemma ReplyUnanswered(codec: Codec, w: World, kind: Kind, h: nat, cfg: Setup)
    requires Faithful(codec) && Unanswered(codec, w, h, cfg) && !kind.PttReady?
    ensures Unanswered(codec, SendDown(codec, w, kind), h, cfg)
  {
    if w.handled == h {
      SealedUnderWay(codec, w.down, codec.encode(ControlMessage(kind, w.downNumber + 1)), PttReady);
    }
  }

  lemma PcUnanswered(codec: Codec, w: World, tag: Tag, p: Packet, now: nat, h: nat, cfg: Setup)
    requires Faithful(codec) && Unanswered(codec, w, h, cfg)
    ensures Unanswered(codec, PcStep(codec, w, tag, p, now, cfg), h, cfg)
  {
    var call := CallAt(codec, w.up, tag, p);
    match call
    case NoCall =>
    case Media(plain) =>
      if w.handled == h {
        MediaMayAnnounce(w.service, codec.unpack(plain), now, cfg);
      }
    case Control(m) =>
      var w1, reply := Handled(codec, w, tag, p, m.kind), Heard(w.service, m.kind).1;
      PcShape(codec, w, tag, p, now, m.kind, cfg);
      HeardOwes(w.service, m.kind);
      if w1.handled == h {
        HeardMayAnnounce(w.service, m.kind, cfg);
      }
      assert Unanswered(codec, w1, h, cfg);
      if reply.Just? {
        ReplyUnanswered(codec, w1, reply.value, h, cfg);
      }
  }

  lemma HearShape(codec: Codec, w: World, tag: Tag, p: Packet)
    ensures var w' := HearStep(codec, w, tag, p);
      && w'.down == Happen(codec, w.down, Receiving(tag, p))
      && w'.service == w.service && w'.handled == w.handled
      && (w'.phone.ptt.UiLive? ==> w.phone.ptt.UiLive? || IsOf(CallAt(codec, w.down, tag, p), PttReady))
  {
  }

  lemma HearUnanswered(codec: Codec, w: World, tag: Tag, p: Packet, h: nat, cfg: Setup)
    requires InboxOk(codec, w.down) && Unanswered(codec, w, h, cfg) && Feasible(w.down.link, Arrive(p))
    ensures Unanswered(codec, HearStep(codec, w, tag, p), h, cfg)
  {
    HearShape(codec, w, tag, p);
    if w.handled == h {
      ReceivedUnderWay(codec, w.down, tag, p, PttReady);
      if IsOf(CallAt(codec, w.down, tag, p), PttReady) {
        CallWasUnderWay(codec, w.down, tag, p, PttReady);
      }
    }
  }

  lemma StepUnanswered(codec: Codec, w: World, a: Action, h: nat, cfg: Setup)
    requires WorldOk(codec, w, cfg) && Unanswered(codec, w, h, cfg) && Enabled(codec, w, a)
    ensures Unanswered(codec, Step(codec, w, a, cfg), h, cfg)
  {
    match a
    case PhoneActs(act) => PhoneUnanswered(codec, w, act, h, cfg);
    case Captures(_) =>
    case PhoneSends(_) =>
    case ServiceTurn(local, heard) => TurnUnanswered(codec, w, local, heard, h, cfg);
    case ServiceSends(kind) => ReplyUnanswered(codec, w, kind, h, cfg);
    case ReachPc(tag, p, now) => PcUnanswered(codec, w, tag, p, now, h, cfg);
    case ReachPhone(tag, p) => HearUnanswered(codec, w, tag, p, h, cfg);
  }

  // ---------------------------------------------------------------- every run

  /** Both ends number the messages they send consecutively. */
  ghost predicate Numbered(codec: Codec, b: Inbox, top: nat) {
    && (forall n | 0 <= n < |b.link.sent| ::
          codec.decode(b.link.sent[n]).Just? ==> codec.decode(b.link.sent[n]).value.number <= top)
    && (forall c | c in b.controls :: c <= top)
  }

  ghost predicate WorldOk(codec: Codec, w: World, cfg: Setup) {
    && Faithful(codec) && Links(codec, w) && Ledger(w) && Orderly(w.service, cfg)
    && Numbered(codec, w.up, w.upNumber) && Numbered(codec, w.down, w.downNumber)
  }

  lemma SealNumbered(codec: Codec, b: Inbox, plain: Bytes, top: nat, top': nat)
    requires Numbered(codec, b, top) && top <= top'
    requires codec.decode(plain).Just? ==> codec.decode(plain).value.number <= top'
    ensures Numbered(codec, Happen(codec, b, Sealing(plain)), top')
  {
    assert Happen(codec, b, Sealing(plain)).link.sent == b.link.sent + [plain];
  }

  lemma ReceiveNumbered(codec: Codec, b: Inbox, tag: Tag, p: Packet, top: nat)
    requires InboxOk(codec, b) && Numbered(codec, b, top) && Feasible(b.link, Arrive(p))
    ensures Numbered(codec, Happen(codec, b, Receiving(tag, p)), top)
  {
    if CallAt(codec, b, tag, p).Control? {
      var n: nat :| n < |b.link.sent| && p.body == Wire(b.link, n).body;
      assert p.body.plain == b.link.sent[n];
    }
  }

  lemma SendUpNumbered(codec: Codec, w: World, kind: Kind)
    requires Faithful(codec) && Numbered(codec, w.up, w.upNumber)
    ensures var w' := SendUp(codec, w, kind); Numbered(codec, w'.up, w'.upNumber)
  {
    SealNumbered(codec, w.up, codec.encode(ControlMessage(kind, w.upNumber + 1)), w.upNumber, w.upNumber + 1);
  }

  lemma SendDownNumbered(codec: Codec, w: World, kind: Kind)
    requires Faithful(codec) && Numbered(codec, w.down, w.downNumber)
    ensures var w' := SendDown(codec, w, kind); Numbered(codec, w'.down, w'.downNumber)
  {
    SealNumbered(codec, w.down, codec.encode(ControlMessage(kind, w.downNumber + 1)), w.downNumber, w.downNumber + 1);
  }

  ghost predicate BothNumbered(codec: Codec, w: World) {
    Numbered(codec, w.up, w.upNumber) && Numbered(codec, w.down, w.downNumber)
  }

  lemma PhoneNumbered(codec: Codec, w: World, act: PhoneAct)
    requires Faithful(codec) && BothNumbered(codec, w)
    ensures BothNumbered(codec, PhoneStep(codec, w, act))
  {
    SendUpNumbered(codec, w, StartPtt);
    SendUpNumbered(codec, w, StopPtt);
  }

  lemma CaptureNumbered(codec: Codec, w: World, encoded: Maybe<J.Payload>)
    requires Faithful(codec) && BothNumbered(codec, w)
    ensures BothNumbered(codec, CaptureStep(codec, w, encoded))
  {
    if Transmits(w, encoded) {
      var m := M.PackOne(w.sender, encoded.value, J.FRAME_SAMPLES, true).1;
      SealNumbered(codec, w.up, codec.pack(m), w.upNumber, w.upNumber);
    }
  }

  lemma TurnNumbered(codec: Codec, w: World, local: R.Source, heard: R.Samples, cfg: Setup)
    requires Faithful(codec) && BothNumbered(codec, w)
    ensures BothNumbered(codec, TurnStep(codec, w, local, heard, cfg))
  {
    SendDownNumbered(codec, w, PttReady);
  }

  lemma PcNumbered(codec: Codec, w: World, tag: Tag, p: Packet, now: nat, cfg: Setup)
    requires Faithful(codec) && InboxOk(codec, w.up) && Feasible(w.up.link, Arrive(p)) && BothNumbered(codec, w)
    ensures BothNumbered(codec, PcStep(codec, w, tag, p, now, cfg))
  {
    var call := CallAt(codec, w.up, tag, p);
    ReceiveNumbered(codec, w.up, tag, p, w.upNumber);
    if call.Control? {
      var w1, reply := Handled(codec, w, tag, p, call.message.kind), Heard(w.service, call.message.kind).1;
      PcShape(codec, w, tag, p, now, call.message.kind, cfg);
      if reply.Just? {
        SendDownNumbered(codec, w1, reply.value);
      }
    }
  }

  lemma StepNumbered(codec: Codec, w: World, a: Action, cfg: Setup)
    requires Faithful(codec) && InboxOk(codec, w.up) && InboxOk(codec, w.down)
    requires BothNumbered(codec, w) && Enabled(codec, w, a)
    ensures BothNumbered(codec, Step(codec, w, a, cfg))
  {
    match a
    case PhoneActs(act) => PhoneNumbered(codec, w, act);
    case Captures(encoded) => CaptureNumbered(codec, w, encoded);
    case PhoneSends(kind) => SendUpNumbered(codec, w, kind);
    case ServiceTurn(local, heard) => TurnNumbered(codec, w, local, heard, cfg);
    case ServiceSends(kind) => SendDownNumbered(codec, w, kind);
    case ReachPc(tag, p, now) => PcNumbered(codec, w, tag, p, now, cfg);
    case ReachPhone(tag, p) => ReceiveNumbered(codec, w.down, tag, p, w.downNumber);
  }

  lemma StepOrderly(codec: Codec, w: World, a: Action, cfg: Setup)
    requires Orderly(w.service, cfg)
    ensures Orderly(Step(codec, w, a, cfg).service, cfg)
  {
    match a
    case ServiceTurn(local, heard) => TurnKeepsOrder(w.service, local, heard, cfg);
    case ReachPc(tag, p, now) => PcOrderly(codec, w, tag, p, now, cfg);
    case _ =>
  }

  lemma PcOrderly(codec: Codec, w: World, tag: Tag, p: Packet, now: nat, cfg: Setup)
    requires Orderly(w.service, cfg)
    ensures Orderly(PcStep(codec, w, tag, p, now, cfg).service, cfg)
  {
    match CallAt(codec, w.up, tag, p)
    case NoCall =>
    case Media(plain) => FedKeeps(w.service, codec.unpack(plain), now, cfg);
    case Control(m) =>
      HeardKeeps(w.service, m.kind, cfg);
      PcShape(codec, w, tag, p, now, m.kind, cfg);
  }

  lemma StepKeepsWorld(codec: Codec, w: World, a: Action, cfg: Setup)
    requires WorldOk(codec, w, cfg) && Enabled(codec, w, a)
    ensures WorldOk(codec, Step(codec, w, a, cfg), cfg)
  {
    StepKeeps(codec, w, a, cfg);
    StepNumbered(codec, w, a, cfg);
    StepOrderly(codec, w, a, cfg);
  }

  lemma {:induction false} EveryRunIsOk(codec: Codec, w: World, actions: seq<Action>, cfg: Setup)
    requires WorldOk(codec, w, cfg) && AllEnabled(codec, w, actions, cfg)
    ensures WorldOk(codec, Run(codec, w, actions, cfg), cfg)
  {
    if actions != [] {
      FrontEnabled(codec, w, actions, cfg);
      EveryRunIsOk(codec, w, actions[..|actions| - 1], cfg);
      StepKeepsWorld(codec, Run(codec, w, actions[..|actions| - 1], cfg), actions[|actions| - 1], cfg);
    }
  }

  lemma NewEpochIsOk(codec: Codec, phone: Phone, sender: M.Sender, key: SessionKey, cfg: Setup)
    requires Faithful(codec) && Coherent(phone)
    ensures WorldOk(codec, NewEpoch(phone, sender, Started(cfg), key), cfg)
  {
    StartedIsOrderly(cfg);
  }

  lemma FrontEnabled(codec: Codec, w: World, actions: seq<Action>, cfg: Setup)
    requires AllEnabled(codec, w, actions, cfg) && actions != []
    ensures var front := actions[..|actions| - 1];
      AllEnabled(codec, w, front, cfg) && Enabled(codec, Run(codec, w, front, cfg), actions[|actions| - 1])
  {
    var front := actions[..|actions| - 1];
    forall i | 0 <= i < |front|
      ensures Enabled(codec, Run(codec, w, front[..i], cfg), front[i])
    {
      assert front[..i] == actions[..i];
    }
  }

  lemma {:induction false} RunUnanswered(codec: Codec, w: World, actions: seq<Action>, h: nat, cfg: Setup)
    requires WorldOk(codec, w, cfg) && Unanswered(codec, w, h, cfg) && AllEnabled(codec, w, actions, cfg)
    ensures Unanswered(codec, Run(codec, w, actions, cfg), h, cfg)
  {
    if actions != [] {
      var front := actions[..|actions| - 1];
      FrontEnabled(codec, w, actions, cfg);
      RunUnanswered(codec, w, front, h, cfg);
      EveryRunIsOk(codec, w, front, cfg);
      StepUnanswered(codec, Run(codec, w, front, cfg), actions[|actions| - 1], h, cfg);
    }
  }

  /** What a press that counts changes at once. */
  lemma PressShape(codec: Codec, w: World, now: nat)
    requires PressSends(w.phone)
    ensures var w1 := PhoneStep(codec, w, Presses(now));
      && w1.down == w.down && w1.service == w.service && w1.handled == w.handled && w1.downNumber == w.downNumber
      && w1.phone.ptt.UiConnecting? && w1.phone.pressed && w1.phone.authenticated
      && w1.sender == w.sender.(marker := true) && w1.packed == w.packed && w1.presses == w.presses + 1
      && w1.up == Happen(codec, w.up, Sealing(codec.encode(ControlMessage(StartPtt, w.upNumber + 1))))
      && w1.upNumber == w.upNumber + 1
  {
  }

  lemma PressedWorld(codec: Codec, w: World, now: nat, cfg: Setup)
    requires WorldOk(codec, w, cfg)
    ensures WorldOk(codec, PhoneStep(codec, w, Presses(now)), cfg)
  {
    StepKeepsWorld(codec, w, PhoneActs(Presses(now)), cfg);
  }

  /** If nothing can be acknowledged without another request when the button goes down, then
      in every continuation the phone is live only once the PC has handled one. */
  lemma LiveAnswersARequest(codec: Codec, w: World, now: nat, actions: seq<Action>, cfg: Setup)
    requires WorldOk(codec, w, cfg) && PressSends(w.phone) && NothingStale(codec, w, cfg)
    requires AllEnabled(codec, Step(codec, w, PhoneActs(Presses(now)), cfg), actions, cfg)
    ensures var end := Run(codec, Step(codec, w, PhoneActs(Presses(now)), cfg), actions, cfg);
      end.phone.ptt.UiLive? ==> end.handled > w.handled
  {
    PressShape(codec, w, now);
    PressedWorld(codec, w, now, cfg);
    RunUnanswered(codec, PhoneStep(codec, w, Presses(now)), actions, w.handled, cfg);
  }
}
