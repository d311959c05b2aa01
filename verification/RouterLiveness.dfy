/** How long the router waits, in milliseconds (windows/audio-service/src/router.cpp): a phone
    that keeps sending stays live, one that falls silent is dropped on time, and a press that
    is not acknowledged is given up on time. */
module RouterLiveness {
  import opened Crossfading
  import opened SourceStates
  import opened RouterModel
  import opened RouterRuns
  import opened RouterOutput

  // ---------------------------------------------------------------- heard

  /** The calls that count as hearing the phone. */
  predicate Beat(cmd: Command) {
    cmd.NotifyHeartbeat? || cmd.NotifyReady? || cmd.PressPtt?
  }

  /** Frames in which no source fails, and beats. */
  predicate Undisturbed(calls: seq<Call>) {
    forall i | 0 <= i < |calls| :: if calls[i].Ticked? then Calm(calls[i].src) else Beat(calls[i].cmd)
  }

  /** Frames since the phone was last heard, `gap` before the first call. */
  function Gap(gap: int, calls: seq<Call>): int {
    if calls == [] then gap
    else if calls[|calls| - 1].Ticked? then Gap(gap, calls[..|calls| - 1]) + 1
    else 0
  }

  /** No frame begins later than the timeout allows. */
  predicate InTime(gap: int, calls: seq<Call>, cfg: Config) {
    forall i | 0 <= i < |calls| && calls[i].Ticked? :: Gap(gap, calls[..i]) <= WholeFrames(cfg.phoneLostTimeoutMs)
  }

  predicate Beats(events: seq<Event>) {
    forall i | 0 <= i < |events| :: events[i].StartPtt? || events[i].PhoneReady?
  }

  /** Live, with nothing waiting but beats. */
  ghost predicate Live(c: Control, gap: int, cfg: Config) {
    Settled(c, cfg) && c.State().PhoneActive? && Beats(c.pending) && c.frame - c.lastHeartbeat == gap
  }

  lemma BeatsPosted(pending: seq<Event>, e: Event)
    requires Beats(pending) && (e.StartPtt? || e.PhoneReady?)
    ensures Beats(Posted(pending, e))
  {
  }

  lemma BeatKeepsLive(c: Control, gap: int, cmd: Command, cfg: Config)
    requires Live(c, gap, cfg) && Beat(cmd)
    ensures Live(Issue(c, cmd), 0, cfg)
  {
    BeatsPosted(c.pending, StartPtt);
    BeatsPosted(c.pending, PhoneReady);
  }

  /** A beat changes nothing in a live router. */
  lemma {:induction false} BeatsDrain(c: Control, events: seq<Event>, cfg: Config)
    requires c.machine == Machine(PhoneActive, AutoMode) && Beats(events)
    ensures ApplyAll(c, events, cfg) == c
    decreases |events|
  {
    if events != [] {
      BeatsDrain(c, events[1..], cfg);
    }
  }

  lemma FrameOfLive(c: Control, gap: int, src: Sources, cfg: Config)
    requires Live(c, gap, cfg) && Calm(src)
    ensures gap <= WholeFrames(cfg.phoneLostTimeoutMs) ==> Live(Tick(c, src, cfg), gap + 1, cfg)
    ensures gap > WholeFrames(cfg.phoneLostTimeoutMs) ==> Gone(Tick(c, src, cfg))
  {
    BeatsDrain(c.(pending := []), c.pending, cfg);
    TickKeeps(c, src, cfg);
  }

  lemma {:induction false} StaysLive(c: Control, calls: seq<Call>, cfg: Config)
    requires Live(c, c.frame - c.lastHeartbeat, cfg) && Undisturbed(calls)
    requires InTime(c.frame - c.lastHeartbeat, calls, cfg)
    ensures Live(AfterFrom(c, calls, cfg), Gap(c.frame - c.lastHeartbeat, calls), cfg)
  {
    if calls != [] {
      var gap, front, last := c.frame - c.lastHeartbeat, calls[..|calls| - 1], calls[|calls| - 1];
      InTimeFront(gap, calls, cfg);
      StaysLive(c, front, cfg);
      match last
      case Ticked(src) => FrameOfLive(AfterFrom(c, front, cfg), Gap(gap, front), src, cfg);
      case Commanded(cmd) => BeatKeepsLive(AfterFrom(c, front, cfg), Gap(gap, front), cmd, cfg);
    }
  }

  lemma InTimeFront(gap: int, calls: seq<Call>, cfg: Config)
    requires calls != [] && InTime(gap, calls, cfg)
    ensures InTime(gap, calls[..|calls| - 1], cfg)
    ensures calls[|calls| - 1].Ticked? ==> Gap(gap, calls[..|calls| - 1]) <= WholeFrames(cfg.phoneLostTimeoutMs)
  {
    var front := calls[..|calls| - 1];
    forall i | 0 <= i < |front| && front[i].Ticked?
      ensures Gap(gap, front[..i]) <= WholeFrames(cfg.phoneLostTimeoutMs)
    {
      assert front[..i] == calls[..i];
    }
  }

  /** A live phone stays live through any beats and frames as long as none comes too late,
      and the next frame keeps it exactly when it does not come too late either: when the
      phone was heard within the last phoneLostTimeoutMs / 20 frames, one at least. */
  lemma LiveExactlyWhileHeard(c: Control, calls: seq<Call>, src: Sources, cfg: Config)
    requires Settled(c, cfg) && c.State().PhoneActive? && c.pending == [] && Undisturbed(calls) && Calm(src)
    requires InTime(c.frame - c.lastHeartbeat, calls, cfg)
    ensures var d := AfterFrom(c, calls, cfg);
      && d.State().PhoneActive?
      && (Tick(d, src, cfg).State().PhoneActive? <==>
            Gap(c.frame - c.lastHeartbeat, calls) <= WholeFrames(cfg.phoneLostTimeoutMs))
  {
    StaysLive(c, calls, cfg);
    FrameOfLive(AfterFrom(c, calls, cfg), Gap(c.frame - c.lastHeartbeat, calls), src, cfg);
  }

  lemma LiveDecides(c: Control, gap: int, src: Sources, cfg: Config)
    requires Live(c, gap, cfg) && Calm(src) && gap <= WholeFrames(cfg.phoneLostTimeoutMs)
    ensures Decided(c, cfg) == c.(pending := []) && AtMixing(c, src, cfg) == c.(pending := [])
    ensures ReadsPhone(Decided(c, cfg), src, cfg)
  {
    BeatsDrain(c.(pending := []), c.pending, cfg);
  }

  lemma FrameMovesRamps(c: Control, gap: int, src: Sources, n: nat, cfg: Config)
    requires Live(c, gap, cfg) && Calm(src) && gap <= WholeFrames(cfg.phoneLostTimeoutMs) && RampsWithin(c, n, cfg)
    ensures RampsWithin(Tick(c, src, cfg), n + 1, cfg)
  {
    LiveDecides(c, gap, src, cfg);
    FrameOfLive(c, gap, src, cfg);
    MixKeeps(c.(pending := []), cfg);
    LandsExactly(c.gate, FRAME_SAMPLES);
  }

  lemma {:induction false} RampsWhileLive(c: Control, calls: seq<Call>, cfg: Config)
    requires Live(c, c.frame - c.lastHeartbeat, cfg) && Undisturbed(calls)
    requires InTime(c.frame - c.lastHeartbeat, calls, cfg)
    ensures RampsWithin(AfterFrom(c, calls, cfg), TickCount(calls), cfg)
  {
    if calls != [] {
      var gap, front, last := c.frame - c.lastHeartbeat, calls[..|calls| - 1], calls[|calls| - 1];
      InTimeFront(gap, calls, cfg);
      RampsWhileLive(c, front, cfg);
      StaysLive(c, front, cfg);
      if last.Ticked? {
        FrameMovesRamps(AfterFrom(c, front, cfg), Gap(gap, front), last.src, TickCount(front), cfg);
      }
    }
  }

  /** And once its frames cover the crossfade, it is what is heard. */
  lemma LivePhoneIsHeard(c: Control, calls: seq<Call>, src: Sources, cfg: Config, i: nat)
    requires Settled(c, cfg) && c.State().PhoneActive? && c.pending == [] && Undisturbed(calls) && Calm(src)
    requires InTime(c.frame - c.lastHeartbeat, calls, cfg)
    requires Gap(c.frame - c.lastHeartbeat, calls) <= WholeFrames(cfg.phoneLostTimeoutMs)
    requires TickCount(calls) > 0 && TickCount(calls) * 960 >= 48 * cfg.crossfadeMs
    requires cfg.curve.Ideal() && i < FRAME_SAMPLES && src.phone.Delivering?
    ensures HeardAs(Output(AfterFrom(c, calls, cfg), src, cfg), i, src.phone.samples, cfg.phoneGain)
  {
    var d, gap := AfterFrom(c, calls, cfg), Gap(c.frame - c.lastHeartbeat, calls);
    StaysLive(c, calls, cfg);
    RampsWhileLive(c, calls, cfg);
    FullIs(cfg.crossfadeMs);
    LiveDecides(d, gap, src, cfg);
    var local, phone := LocalFrame(Decided(d, cfg), src), PhoneFrame(Decided(d, cfg), src, cfg);
    MixIsHeard(d.(pending := []), local, phone, Output(d, src, cfg), cfg, i);
  }

  // ---------------------------------------------------------------- and dropped for good

  /** On the way back to the local microphone or there. */
  predicate Gone(c: Control) {
    c.pending == [] && (c.State().ReturningToLocal? || c.State().LocalActive?) && c.machine.mode.AutoMode?
  }

  lemma FrameOfGone(c: Control, src: Sources, cfg: Config)
    requires Gone(c) && Calm(src)
    ensures Gone(Tick(c, src, cfg))
  {
    assert Drain(c, cfg) == c;
  }

  predicate OnlyHeartbeats(calls: seq<Call>) {
    forall i | 0 <= i < |calls| :: if calls[i].Ticked? then Calm(calls[i].src) else calls[i].cmd.NotifyHeartbeat?
  }

  /** With heartbeats and frames alone, once dropped is dropped: the phone is live at the end
      exactly when every frame came in time. */
  lemma {:induction false} LiveIffHeardInTime(c: Control, calls: seq<Call>, cfg: Config)
    requires Settled(c, cfg) && c.State().PhoneActive? && c.pending == [] && OnlyHeartbeats(calls)
    ensures var d, gap := AfterFrom(c, calls, cfg), c.frame - c.lastHeartbeat;
      && (d.State().PhoneActive? <==> InTime(gap, calls, cfg))
      && (InTime(gap, calls, cfg) ==> Live(d, Gap(gap, calls), cfg) && d.pending == [])
      && (!InTime(gap, calls, cfg) ==> Gone(d))
  {
    if calls != [] {
      var gap, front, last := c.frame - c.lastHeartbeat, calls[..|calls| - 1], calls[|calls| - 1];
      LiveIffHeardInTime(c, front, cfg);
      InTimeSnoc(gap, calls, cfg);
      HeartbeatStep(AfterFrom(c, front, cfg), Gap(gap, front), last, InTime(gap, front, cfg), cfg);
    }
  }

  lemma InTimeSnoc(gap: int, calls: seq<Call>, cfg: Config)
    requires calls != []
    ensures var front := calls[..|calls| - 1];
      InTime(gap, calls, cfg) <==>
        InTime(gap, front, cfg)
        && (calls[|calls| - 1].Ticked? ==> Gap(gap, front) <= WholeFrames(cfg.phoneLostTimeoutMs))
  {
    var front := calls[..|calls| - 1];
    if InTime(gap, calls, cfg) {
      InTimeFront(gap, calls, cfg);
    } else {
      var i :| 0 <= i < |calls| && calls[i].Ticked? && Gap(gap, calls[..i]) > WholeFrames(cfg.phoneLostTimeoutMs);
      if i < |front| {
        assert front[..i] == calls[..i] && front[i].Ticked?;
      }
    }
  }

  lemma HeartbeatStep(c: Control, gap: int, call: Call, live: bool, cfg: Config)
    requires if call.Ticked? then Calm(call.src) else call.cmd.NotifyHeartbeat?
    requires if live then Live(c, gap, cfg) && c.pending == [] else Gone(c)
    ensures var d := After1(c, call, cfg);
      if !live then Gone(d)
      else if call.Commanded? then Live(d, 0, cfg) && d.pending == []
      else if gap <= WholeFrames(cfg.phoneLostTimeoutMs) then Live(d, gap + 1, cfg) && d.pending == []
      else Gone(d)
  {
    match call
    case Ticked(src) =>
      if live {
        FrameOfLive(c, gap, src, cfg);
        TickKeeps(c, src, cfg);
      } else {
        FrameOfGone(c, src, cfg);
      }
    case Commanded(_) =>
  }

  // ---------------------------------------------------------------- let go

  /** The last event waiting has its effect. */
  lemma LastWaiting(c: Control, e: Event, cfg: Config)
    requires Settled(c, cfg)
    ensures exists m :: ModeAgrees(m) && Drain(Post(c, e), cfg).machine == Step(m, e)
    ensures Aimed(Drain(Post(c, e), cfg), cfg)
  {
    var pending := Post(c, e).pending;
    var front := pending[..|pending| - 1];
    assert pending == front + [e];
    ApplyAllKeepsAim(c.(pending := []), front, cfg);
    ApplyAllKeepsAim(c.(pending := []), pending, cfg);
    ApplyAllLast(c.(pending := []), front, e, cfg);
    ApplyEventIs(ApplyAll(c.(pending := []), front, cfg), Step(ApplyAll(c.(pending := []), front, cfg).machine, e), e, cfg);
  }

  /** Timers and a frame without failures neither arm nor make live. */
  lemma FrameLetsGo(c: Control, src: Sources, cfg: Config)
    requires Calm(src) && !Drain(c, cfg).State().PhoneActive? && !Drain(c, cfg).State().PhoneArming?
    ensures !Tick(c, src, cfg).State().PhoneActive? && !Tick(c, src, cfg).State().PhoneArming?
  {
  }

  /** A release, or the loss of the connection, ends arming and live in the next frame, in
      every state and whatever waits before it. */
  lemma LetGo(c: Control, cmd: Command, src: Sources, cfg: Config)
    requires Settled(c, cfg) && Calm(src) && (cmd.ReleasePtt? || cmd.NotifyGone?)
    ensures var t := Tick(Issue(c, cmd), src, cfg); !t.State().PhoneActive? && !t.State().PhoneArming?
  {
    LastWaiting(c, if cmd.ReleasePtt? then StopPtt else PhoneLost, cfg);
    FrameLetsGo(Issue(c, cmd), src, cfg);
  }

  /** What a call says to the state machine. */
  function SaidBy(call: Call): seq<Event> {
    match call
    case Commanded(SetMode(m)) => [ModeEvent(m)]
    case Commanded(PressPtt) => [StartPtt]
    case Commanded(ReleasePtt) => [StopPtt]
    case Commanded(NotifyReady) => [PhoneReady]
    case Commanded(NotifyGone) => [PhoneLost]
    case _ => []
  }

  function Said(calls: seq<Call>): seq<Event> {
    if calls == [] then [] else Said(calls[..|calls| - 1]) + SaidBy(calls[|calls| - 1])
  }

  function Last256(events: seq<Event>): seq<Event> {
    if |events| <= 256 then events else events[|events| - 256..]
  }

  lemma OneMoreWaits(events: seq<Event>, e: Event)
    ensures Posted(Last256(events), e) == Last256(events + [e])
  {
    if |events| > 256 {
      assert (Last256(events) + [e])[1..] == (events + [e])[|events| - 255..];
    }
  }

  lemma CommandWaits(c: Control, cmd: Command, events: seq<Event>, cfg: Config)
    requires c.pending == Last256(events)
    ensures Issue(c, cmd).pending == Last256(events + SaidBy(Commanded(cmd)))
  {
    var said := SaidBy(Commanded(cmd));
    if said == [] {
      assert events + said == events;
    } else {
      OneMoreWaits(events, said[0]);
      assert said == [said[0]];
    }
  }

  lemma Regroup<T>(a: seq<T>, b: seq<T>, c: seq<T>)
    ensures a + (b + c) == a + b + c
  {
  }

  /** Between frames the newest 256 events wait, in order. */
  lemma {:induction false} NewestWait(c: Control, calls: seq<Call>, cfg: Config)
    requires |c.pending| <= 256 && forall i | 0 <= i < |calls| :: calls[i].Commanded?
    ensures AfterFrom(c, calls, cfg).pending == Last256(c.pending + Said(calls))
  {
    if calls == [] {
      assert c.pending + [] == c.pending;
    } else {
      var front := calls[..|calls| - 1];
      NewestWait(c, front, cfg);
      CommandWaits(AfterFrom(c, front, cfg), calls[|calls| - 1].cmd, c.pending + Said(front), cfg);
      Regroup(c.pending, Said(front), SaidBy(calls[|calls| - 1]));
    }
  }

  // ---------------------------------------------------------------- arming

  /** A press that nothing answers is arming for exactly the frames of armTimeoutMs, one at
      least, whatever heartbeats come. */
  lemma {:induction false} ArmingExactlyInTime(c: Control, calls: seq<Call>, cfg: Config)
    requires Settled(c, cfg) && c.State().PhoneArming? && c.pending == [] && OnlyHeartbeats(calls)
    requires TickCount(calls) > 0 ==> c.frame + TickCount(calls) - 1 - c.armStarted <= WholeFrames(cfg.armTimeoutMs)
    ensures var d := AfterFrom(c, calls, cfg);
      && Settled(d, cfg) && d.State().PhoneArming? && d.pending == [] && d.armStarted == c.armStarted
      && d.frame == c.frame + TickCount(calls)
      && forall src: Sources | Calm(src) ::
           Tick(d, src, cfg).State().PhoneArming? <==> d.frame - c.armStarted <= WholeFrames(cfg.armTimeoutMs)
  {
    if calls != [] {
      var front, last := calls[..|calls| - 1], calls[|calls| - 1];
      ArmingExactlyInTime(c, front, cfg);
      if last.Ticked? {
        FrameOfArming(AfterFrom(c, front, cfg), last.src, cfg);
      }
    }
    forall src: Sources | Calm(src)
      ensures Tick(AfterFrom(c, calls, cfg), src, cfg).State().PhoneArming? <==>
              AfterFrom(c, calls, cfg).frame - c.armStarted <= WholeFrames(cfg.armTimeoutMs)
    {
      FrameOfArming(AfterFrom(c, calls, cfg), src, cfg);
    }
  }

  lemma FrameOfArming(c: Control, src: Sources, cfg: Config)
    requires Settled(c, cfg) && c.State().PhoneArming? && c.pending == [] && Calm(src)
    ensures var d := Tick(c, src, cfg);
      && Settled(d, cfg) && d.pending == [] && d.armStarted == c.armStarted && d.frame == c.frame + 1
      && (d.State().PhoneArming? <==> c.frame - c.armStarted <= WholeFrames(cfg.armTimeoutMs))
  {
    assert Drain(c, cfg) == c;
    TickKeeps(c, src, cfg);
  }
}
