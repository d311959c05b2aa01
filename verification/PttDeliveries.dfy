/** Continuations of the push-to-talk chain, step by step: frames that make the phone source
    ready, turns that bring out an acknowledgement, and messages that go through. */
module PttDeliveries {
  import opened Basics
  import opened Encoding
  import opened Pairing
  import opened ReplayWindows
  import opened SecureChannels
  import opened LossyDelivery
  import opened PeerSessionModel
  import opened SessionDelivery
  import opened PhonePtt
  import opened ServicePtt
  import opened PttChain
  import opened PttAnswers
  import SourceStates
  import M = PhoneMedia
  import J = JitterBuffers
  import R = RouterModel
  import Runs = RouterRuns

  lemma RunSnoc(codec: Codec, w: World, actions: seq<Action>, a: Action, cfg: Setup)
    requires AllEnabled(codec, w, actions, cfg) && Enabled(codec, Run(codec, w, actions, cfg), a)
    ensures AllEnabled(codec, w, actions + [a], cfg)
    ensures Run(codec, w, actions + [a], cfg) == Step(codec, Run(codec, w, actions, cfg), a, cfg)
  {
    var all := actions + [a];
    assert all[..|actions|] == actions;
    forall i | 0 <= i < |all|
      ensures Enabled(codec, Run(codec, w, all[..i], cfg), all[i])
    {
      if i < |actions| {
        assert all[..i] == actions[..i];
      }
    }
  }

  /** Two actions, given what each leaves. */
  lemma RunTwo(codec: Codec, w: World, a: Action, b: Action, w1: World, w2: World, cfg: Setup)
    requires Enabled(codec, w, a) && w1 == Step(codec, w, a, cfg)
    requires Enabled(codec, w1, b) && w2 == Step(codec, w1, b, cfg)
    ensures AllEnabled(codec, w, [] + [a] + [b], cfg) && Run(codec, w, [] + [a] + [b], cfg) == w2
  {
    RunSnoc(codec, w, [], a, cfg);
    RunSnoc(codec, w, [] + [a], b, cfg);
  }

  lemma RunLast(codec: Codec, w: World, front: seq<Action>, a: Action, cfg: Setup)
    ensures Run(codec, w, front + [a], cfg) == Step(codec, Run(codec, w, front, cfg), a, cfg)
  {
    assert (front + [a])[..|front|] == front;
  }

  lemma TakeNext<T>(front: seq<T>, rest: seq<T>, n: nat)
    requires 0 < n <= |rest|
    ensures front + rest[..n] == front + rest[..n - 1] + [rest[n - 1]] && rest[..n] == rest[..n - 1] + [rest[n - 1]]
  {
  }

  lemma TakeEnds<T>(front: seq<T>, rest: seq<T>)
    ensures front + rest[..0] == front && rest[..0] == [] && rest[..|rest|] == rest
  {
  }

  /** Running on from where the front ends is running the whole, up to n actions further. */
  ghost predicate Onward(codec: Codec, w: World, front: seq<Action>, rest: seq<Action>, n: nat, cfg: Setup)
    requires n <= |rest|
  {
    Run(codec, w, front + rest[..n], cfg) == Run(codec, Run(codec, w, front, cfg), rest[..n], cfg)
  }

  lemma OnwardNext(codec: Codec, w: World, front: seq<Action>, rest: seq<Action>, n: nat, cfg: Setup)
    requires 0 < n <= |rest| && Onward(codec, w, front, rest, n - 1, cfg)
    ensures Onward(codec, w, front, rest, n, cfg)
  {
    TakeNext(front, rest, n);
    RunLast(codec, w, front + rest[..n - 1], rest[n - 1], cfg);
    RunLast(codec, Run(codec, w, front, cfg), rest[..n - 1], rest[n - 1], cfg);
  }

  lemma {:induction false} OnwardFrom(codec: Codec, w: World, front: seq<Action>, rest: seq<Action>, n: nat, cfg: Setup)
    requires n <= |rest|
    ensures Onward(codec, w, front, rest, n, cfg)
  {
    if n == 0 {
      TakeEnds(front, rest);
    } else {
      OnwardFrom(codec, w, front, rest, n - 1, cfg);
      OnwardNext(codec, w, front, rest, n, cfg);
    }
  }

  /** And each of those actions is enabled there if it is on the way. */
  lemma EnabledOnward(codec: Codec, w: World, front: seq<Action>, rest: seq<Action>, n: nat, cfg: Setup)
    requires n < |rest| && Onward(codec, w, front, rest, n, cfg) && AllEnabled(codec, Run(codec, w, front, cfg), rest, cfg)
    ensures Enabled(codec, Run(codec, w, front + rest[..n], cfg), rest[n])
  {
  }

  lemma {:induction false} ConcatTo(codec: Codec, w: World, front: seq<Action>, rest: seq<Action>, n: nat, cfg: Setup)
    requires AllEnabled(codec, w, front, cfg) && AllEnabled(codec, Run(codec, w, front, cfg), rest, cfg)
    requires n <= |rest|
    ensures AllEnabled(codec, w, front + rest[..n], cfg)
  {
    if n == 0 {
      TakeEnds(front, rest);
    } else {
      ConcatTo(codec, w, front, rest, n - 1, cfg);
      OnwardFrom(codec, w, front, rest, n - 1, cfg);
      EnabledOnward(codec, w, front, rest, n - 1, cfg);
      RunSnoc(codec, w, front + rest[..n - 1], rest[n - 1], cfg);
      TakeNext(front, rest, n);
    }
  }

  /** One run and then another. */
  lemma RunConcat(codec: Codec, w: World, front: seq<Action>, rest: seq<Action>, cfg: Setup)
    requires AllEnabled(codec, w, front, cfg) && AllEnabled(codec, Run(codec, w, front, cfg), rest, cfg)
    ensures AllEnabled(codec, w, front + rest, cfg)
    ensures Run(codec, w, front + rest, cfg) == Run(codec, Run(codec, w, front, cfg), rest, cfg)
  {
    TakeEnds(front, rest);
    ConcatTo(codec, w, front, rest, |rest|, cfg);
    OnwardFrom(codec, w, front, rest, |rest|, cfg);
  }

  // ---------------------------------------------------------------- what goes through

  /** A newly sealed datagram opens when it arrives. */
  lemma NewestOpens(codec: Codec, b: Inbox, plain: Bytes)
    requires InboxOk(codec, b)
    ensures var b' := Happen(codec, b, Sealing(plain));
      var n := |b.link.sent|;
      && b'.link.sent == b.link.sent + [plain] && b'.controls == b.controls && b'.served == b.served
      && Fresh(WINDOW, b'.link.receiver.accepted, n)
      && Opens(b'.link.receiver, Wire(b'.link, n)) && Feasible(b'.link, Arrive(Wire(b'.link, n)))
  {
    var b', n := Happen(codec, b, Sealing(plain)), |b.link.sent|;
    forall c | c in b.link.receiver.accepted
      ensures c < n
    {
      var d :| d in b.link.log && d.counter == c;
    }
    assert Wire(b'.link, n).body == Wire(b'.link, n).body;
  }

  /** What a servable control message does when it arrives. */
  lemma ServableCalls(codec: Codec, b: Inbox, n: nat)
    requires InboxOk(codec, b) && Servable(codec, b, n)
    ensures var p := Wire(b.link, n);
      && Feasible(b.link, Arrive(p))
      && CallAt(codec, b, ControlTag, p) == Control(codec.decode(b.link.sent[n]).value)
  {
    assert Opens(b.link.receiver, Wire(b.link, n));
  }

  /** An acknowledgement under way makes a pressed phone live when it arrives. */
  lemma ArrivesLive(codec: Codec, w: World, cfg: Setup) returns (a: Action)
    requires InboxOk(codec, w.down) && w.phone.pressed && UnderWay(codec, w.down, PttReady)
    ensures a.ReachPhone? && Enabled(codec, w, a)
    ensures var w' := Step(codec, w, a, cfg);
      w'.phone.ptt.UiLive? && w'.handled == w.handled && w'.presses == w.presses && w'.up == w.up
  {
    var n: nat :| Servable(codec, w.down, n) && KindOf(codec, w.down.link.sent[n]) == Just(PttReady);
    a := ReachPhone(ControlTag, Wire(w.down.link, n));
    ServableCalls(codec, w.down, n);
  }

  /** A freshly sent acknowledgement is under way. */
  lemma SentIsUnderWay(codec: Codec, w: World)
    requires Faithful(codec) && InboxOk(codec, w.down) && Numbered(codec, w.down, w.downNumber)
    ensures UnderWay(codec, SendDown(codec, w, PttReady).down, PttReady)
  {
    var plain := codec.encode(ControlMessage(PttReady, w.downNumber + 1));
    NewestOpens(codec, w.down, plain);
    assert Servable(codec, SendDown(codec, w, PttReady).down, |w.down.link.sent|);
  }

  // ---------------------------------------------------------------- frames

  /** Everything outside the media path is as it was, the router's liveness stamp aside, and
      no control message has been served. */
  ghost predicate OnlyMedia(w: World, w': World) {
    && w'.phone == w.phone && w'.down == w.down && w'.upNumber == w.upNumber && w'.downNumber == w.downNumber
    && w'.presses == w.presses && w'.handled == w.handled && w'.emitted == w.emitted
    && w'.service.requested == w.service.requested && w'.service.announced == w.service.announced
    && w'.service.router == w.service.router.(lastHeartbeat := w'.service.router.lastHeartbeat)
    && w'.service.media.running == w.service.media.running
    && w'.up.controls == w.up.controls && ControlsServed(w'.up) == ControlsServed(w.up)
  }

  function ControlsServed(b: Inbox): set<Served> {
    set s | s in b.served && s.call.Control?
  }

  /** One frame is captured and arrives. */
  lemma FrameThrough(codec: Codec, w: World, payload: J.Payload, cfg: Setup) returns (actions: seq<Action>)
    requires Faithful(codec) && InboxOk(codec, w.up) && w.phone.pressed && w.phone.authenticated
    ensures AllEnabled(codec, w, actions, cfg)
    ensures var w' := Run(codec, w, actions, cfg);
      var (sender, m) := M.PackOne(w.sender, payload, J.FRAME_SAMPLES, true);
      && OnlyMedia(w, w') && InboxOk(codec, w'.up) && w'.sender == sender && w'.packed == w.packed + 1
      && w'.service.media == M.OnMedia(w.service.media, cfg.jitter, m, 0)
  {
    var (sender, m) := M.PackOne(w.sender, payload, J.FRAME_SAMPLES, true);
    var plain := codec.pack(m);
    var w1 := CaptureStep(codec, w, Just(payload));
    NewestOpens(codec, w.up, plain);
    SealingKeeps(codec, w.up, plain);
    var p := Wire(w1.up.link, |w.up.link.sent|);
    ReceivingKeeps(codec, w1.up, MediaTag, p);
    RunSnoc(codec, w, [], Captures(Just(payload)), cfg);
    RunSnoc(codec, w, [] + [Captures(Just(payload))], ReachPc(MediaTag, p, 0), cfg);
    actions := [] + [Captures(Just(payload))] + [ReachPc(MediaTag, p, 0)];
    MediaServed(codec, w1, p, plain, cfg);
  }

  lemma MediaServed(codec: Codec, w: World, p: Packet, plain: Bytes, cfg: Setup)
    requires Opens(w.up.link.receiver, p) && p.body.plain == plain
    ensures var w' := PcStep(codec, w, MediaTag, p, 0, cfg);
      && OnlyMedia(w, w') && w'.up == Happen(codec, w.up, Receiving(MediaTag, p))
      && w'.sender == w.sender && w'.packed == w.packed
      && w'.service.media == M.OnMedia(w.service.media, cfg.jitter, codec.unpack(plain), 0)
  {
    SourceRuns(w.service.media, codec.unpack(plain), 0, cfg.jitter);
    var w' := PcStep(codec, w, MediaTag, p, 0, cfg);
    assert w'.up.served == w.up.served + [Served(p.counter, Media(plain))];
    assert ControlsServed(w'.up) == ControlsServed(w.up);
  }

  ghost predicate FramedBy(codec: Codec, w: World, v: World, k: nat, cfg: Setup) {
    && OnlyMedia(w, v) && InboxOk(codec, v.up)
    && v.sender == M.SenderAfter(w.sender, k) && v.packed == w.packed + k
    && v.service.media == M.SourceAfterFrames(w.service.media, cfg.jitter, w.sender, k)
  }

  lemma FramedByNext(codec: Codec, w: World, v: World, v': World, k: nat, cfg: Setup)
    requires FramedBy(codec, w, v, k, cfg) && OnlyMedia(v, v') && InboxOk(codec, v'.up) && v'.packed == v.packed + 1
    requires var (sender, m) := M.PackOne(v.sender, M.FRAME, J.FRAME_SAMPLES, true);
      v'.sender == sender && v'.service.media == M.OnMedia(v.service.media, cfg.jitter, m, 0)
    ensures FramedBy(codec, w, v', k + 1, cfg)
  {
    OnlyMediaTwice(w, v, v');
  }

  /** One frame more. */
  lemma FrameAfter(codec: Codec, w: World, v: World, k: nat, cfg: Setup) returns (actions: seq<Action>)
    requires Faithful(codec) && w.phone.pressed && w.phone.authenticated && k > 0 && FramedBy(codec, w, v, k - 1, cfg)
    ensures AllEnabled(codec, v, actions, cfg) && FramedBy(codec, w, Run(codec, v, actions, cfg), k, cfg)
  {
    actions := FrameThrough(codec, v, M.FRAME, cfg);
    FramedByNext(codec, w, v, Run(codec, v, actions, cfg), k - 1, cfg);
  }

  lemma FramedOn(codec: Codec, w: World, front: seq<Action>, more: seq<Action>, k: nat, cfg: Setup)
    requires AllEnabled(codec, w, front, cfg) && AllEnabled(codec, Run(codec, w, front, cfg), more, cfg)
    requires FramedBy(codec, w, Run(codec, Run(codec, w, front, cfg), more, cfg), k, cfg)
    ensures AllEnabled(codec, w, front + more, cfg) && FramedBy(codec, w, Run(codec, w, front + more, cfg), k, cfg)
  {
    RunConcat(codec, w, front, more, cfg);
  }

  /** The first k frames of a spurt that begins now. */
  lemma {:induction false} FramesThrough(codec: Codec, w: World, k: nat, cfg: Setup) returns (actions: seq<Action>)
    requires Faithful(codec) && InboxOk(codec, w.up) && w.phone.pressed && w.phone.authenticated
    ensures AllEnabled(codec, w, actions, cfg)
    ensures FramedBy(codec, w, Run(codec, w, actions, cfg), k, cfg)
  {
    actions := [];
    if k > 0 {
      actions := FramesThrough(codec, w, k - 1, cfg);
      var more := FrameAfter(codec, w, Run(codec, w, actions, cfg), k, cfg);
      FramedOn(codec, w, actions, more, k, cfg);
      actions := actions + more;
    }
  }

  lemma OnlyMediaTwice(u: World, v: World, w: World)
    requires OnlyMedia(u, v) && OnlyMedia(v, w)
    ensures OnlyMedia(u, w)
  {
  }

  /** Enough of them make the source ready. */
  lemma SourceFilled(codec: Codec, w: World, cfg: Setup) returns (actions: seq<Action>)
    requires Faithful(codec) && InboxOk(codec, w.up) && w.phone.pressed && w.phone.authenticated
    requires w.sender.marker && w.service.media.running && M.Fillable(cfg.jitter)
    ensures AllEnabled(codec, w, actions, cfg)
    ensures var w' := Run(codec, w, actions, cfg); OnlyMedia(w, w') && SourceReady(w'.service, cfg)
  {
    actions := FramesThrough(codec, w, M.FramesToFill(cfg.jitter), cfg);
    M.FramesFill(w.service.media, cfg.jitter, w.sender);
  }

  // ---------------------------------------------------------------- turns

  /** A turn that does not acknowledge touches the service alone. */
  lemma PlainTurn(codec: Codec, w: World, local: R.Source, heard: R.Samples, cfg: Setup)
    requires !Announces(w.service, cfg)
    ensures TurnStep(codec, w, local, heard, cfg) == w.(service := Ticked(w.service, local, heard, cfg))
  {
  }

  /** The service arms, if it is not arming yet. */
  lemma Arms(codec: Codec, w: World, local: R.Source, heard: R.Samples, cfg: Setup) returns (actions: seq<Action>)
    requires WorldOk(codec, w, cfg) && MayAnnounce(w.service, cfg) && !local.Failing?
    ensures AllEnabled(codec, w, actions, cfg)
    ensures var w' := Run(codec, w, actions, cfg);
      && w' == w.(service := w'.service) && Owed(w'.service) && w'.service.media.running
      && w'.service.router.State().PhoneArming?
  {
    actions := [];
    if !w.service.router.State().PhoneArming? {
      RunSnoc(codec, w, actions, ServiceTurn(local, heard), cfg);
      actions := actions + [ServiceTurn(local, heard)];
      PlainTurn(codec, w, local, heard, cfg);
      TickStays(w.service.router, Answers(w.service, local, heard), cfg.router);
      TickedKeeps(w.service, local, heard, cfg);
    }
  }

  /** Turns and frames that bring out the acknowledgement the service still owes. */
  lemma Acknowledges(codec: Codec, w: World, local: R.Source, heard: R.Samples, cfg: Setup)
      returns (actions: seq<Action>)
    requires WorldOk(codec, w, cfg) && MayAnnounce(w.service, cfg) && !local.Failing?
    requires w.phone.pressed && w.phone.authenticated && w.sender.marker
    ensures AllEnabled(codec, w, actions, cfg)
    ensures var end := Run(codec, w, actions, cfg);
      && UnderWay(codec, end.down, PttReady) && end.phone == w.phone
      && end.handled == w.handled && end.presses == w.presses && ControlsServed(end.up) == ControlsServed(w.up)
  {
    actions := Arms(codec, w, local, heard, cfg);
    var armed := Run(codec, w, actions, cfg);
    var frames := SourceFilled(codec, armed, cfg);
    RunConcat(codec, w, actions, frames, cfg);
    actions := actions + frames;
    EveryRunIsOk(codec, w, actions, cfg);
    var full := Run(codec, w, actions, cfg);
    RunSnoc(codec, w, actions, ServiceTurn(local, heard), cfg);
    actions := actions + [ServiceTurn(local, heard)];
    SentIsUnderWay(codec, full.(service := AfterTurn(full.service, local, heard, cfg)));
  }

  /** And then makes the pressed phone live. */
  lemma GoesLive(codec: Codec, w: World, local: R.Source, heard: R.Samples, cfg: Setup) returns (actions: seq<Action>)
    requires WorldOk(codec, w, cfg) && !NothingStale(codec, w, cfg) && !local.Failing?
    requires w.phone.pressed && w.phone.authenticated && w.sender.marker
    ensures AllEnabled(codec, w, actions, cfg)
    ensures var end := Run(codec, w, actions, cfg);
      && end.phone.ptt.UiLive? && end.handled == w.handled && end.presses == w.presses
      && ControlsServed(end.up) == ControlsServed(w.up)
  {
    actions := [];
    if !UnderWay(codec, w.down, PttReady) {
      actions := Acknowledges(codec, w, local, heard, cfg);
    }
    EveryRunIsOk(codec, w, actions, cfg);
    var a := ArrivesLive(codec, Run(codec, w, actions, cfg), cfg);
    RunSnoc(codec, w, actions, a, cfg);
    actions := actions + [a];
  }

  // ---------------------------------------------------------------- rest

  /** Draining and the timers change the mode only by mode events. */
  lemma {:induction false} DrainedMode(c: R.Control, events: seq<SourceStates.Event>, cfg: R.Config)
    ensures R.ApplyAll(c, events, cfg).machine.mode == LastMode(events, c.machine.mode)
  {
    if events != [] {
      var front, e := events[..|events| - 1], events[|events| - 1];
      assert events == front + [e];
      DrainedMode(c, front, cfg);
      R.ApplyAllLast(c, front, e, cfg);
    }
  }

  lemma TickMode(c: R.Control, src: R.Sources, cfg: R.Config)
    requires Runs.Calm(src)
    ensures R.Tick(c, src, cfg).machine.mode == LastMode(c.pending, c.machine.mode)
  {
    DrainedMode(c.(pending := []), c.pending, cfg);
    TimersMode(R.Drain(c, cfg), cfg);
    SourcesStay(R.Decided(c, cfg), src, cfg);
    var m := R.Mixed(c, src, cfg);
    CloseFadeMode(m.(frame := m.frame + 1), cfg);
  }

  lemma TimersMode(c: R.Control, cfg: R.Config)
    ensures R.Timers(c, cfg).machine.mode == c.machine.mode
  {
  }

  lemma CloseFadeMode(c: R.Control, cfg: R.Config)
    ensures R.CloseFade(c, cfg).machine.mode == c.machine.mode
  {
  }

  /** Left alone with nothing to acknowledge, the router comes to rest in the mode that the
      events waiting select. */
  lemma {:induction false} Rests(codec: Codec, w: World, local: R.Source, heard: R.Samples, cfg: Setup)
      returns (actions: seq<Action>)
    requires WorldOk(codec, w, cfg) && !MayAnnounce(w.service, cfg) && !local.Failing?
    ensures AllEnabled(codec, w, actions, cfg)
    ensures var end := Run(codec, w, actions, cfg);
      && end == w.(service := end.service) && !MayAnnounce(end.service, cfg)
      && end.service.requested == w.service.requested && end.service.announced == w.service.announced
      && end.service.router.pending == [] && Runs.Resting(end.service.router)
      && end.service.router.machine.mode == LastMode(w.service.router.pending, w.service.router.machine.mode)
  {
    var s := w.service;
    TurnMayAnnounce(s, local, heard, cfg);
    PlainTurn(codec, w, local, heard, cfg);
    TickedKeeps(s, local, heard, cfg);
    TickMode(s.router, Answers(s, local, heard), cfg.router);
    RunSnoc(codec, w, [], ServiceTurn(local, heard), cfg);
    actions := [] + [ServiceTurn(local, heard)];
    var v := Run(codec, w, actions, cfg);
    StepKeepsWorld(codec, w, ServiceTurn(local, heard), cfg);
    var more := Settles(codec, v, local, heard, cfg);
    RunConcat(codec, w, actions, more, cfg);
    actions := actions + more;
  }

  lemma {:induction false} Settles(codec: Codec, w: World, local: R.Source, heard: R.Samples, cfg: Setup)
      returns (actions: seq<Action>)
    requires WorldOk(codec, w, cfg) && !MayAnnounce(w.service, cfg) && !local.Failing?
    requires w.service.router.pending == []
    ensures AllEnabled(codec, w, actions, cfg)
    ensures var end := Run(codec, w, actions, cfg);
      && end == w.(service := end.service) && !MayAnnounce(end.service, cfg)
      && end.service.requested == w.service.requested && end.service.announced == w.service.announced
      && end.service.router.pending == [] && Runs.Resting(end.service.router)
      && end.service.router.machine.mode == w.service.router.machine.mode
    decreases Runs.Distance(w.service.router, cfg.router)
  {
    var s := w.service;
    Runs.DistanceBounds(s.router, cfg.router);
    actions := [];
    if !Runs.Resting(s.router) {
      TurnMayAnnounce(s, local, heard, cfg);
      PlainTurn(codec, w, local, heard, cfg);
      TickedKeeps(s, local, heard, cfg);
      Runs.CalmTickApproaches(s.router, Answers(s, local, heard), cfg.router);
      RunSnoc(codec, w, [], ServiceTurn(local, heard), cfg);
      actions := [] + [ServiceTurn(local, heard)];
      StepKeepsWorld(codec, w, ServiceTurn(local, heard), cfg);
      var more := Settles(codec, Run(codec, w, actions, cfg), local, heard, cfg);
      RunConcat(codec, w, actions, more, cfg);
      actions := actions + more;
    }
  }
}
