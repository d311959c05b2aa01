/** When the samples of either source stay in the frame (windows/audio-service/src/router.cpp).
    The gains never jump, but a source that the decided state does not want is replaced by
    silence in that very frame, unless the output gate is moving. */
module SampleContinuity {
  import opened Crossfading
  import opened SourceStates
  import opened RouterModel
  import opened RouterRuns

  // ---------------------------------------------------------------- before the tick

  /** When arming was last entered, if the events leave the machine arming. */
  function ArmedAt(m: Machine, events: seq<Event>, stamp: nat, frame: nat): nat {
    if events == [] then stamp
    else
      var front := events[..|events| - 1];
      if StepAll(m, events).state.PhoneArming? && !StepAll(m, front).state.PhoneArming? then frame
      else ArmedAt(m, front, stamp, frame)
  }

  /** The state the coming tick will read its sources in, from the state machine alone: the
      waiting events in turn, then at most one of the three timers. */
  function ReadingState(c: Control, cfg: Config): SourceState {
    var m := StepAll(c.machine, c.pending);
    match m.state
    case ErrorRecovery => RestingState(m.mode)
    case PhoneArming =>
      if c.frame - ArmedAt(c.machine, c.pending, c.armStarted, c.frame) > cfg.ArmFrames() then ErrorRecovery
      else PhoneArming
    case PhoneActive =>
      if c.frame - c.lastHeartbeat > cfg.LostFrames() then ReturningToLocal else PhoneActive
    case s => s
  }

  /** The frame will carry the phone: the gate will be moving, or the state wants the phone
      and no failure of the local source comes first. */
  predicate CarriesPhone(c: Control, localFails: bool, cfg: Config) {
    var s := ReadingState(c, cfg);
    c.gate.position != GateTarget(s) || (WantsPhone(s) && !(localFails && WantsLocal(s)))
  }

  /** The same for the local microphone, which is read first. */
  predicate CarriesLocal(c: Control, cfg: Config) {
    var s := ReadingState(c, cfg);
    c.gate.position != GateTarget(s) || WantsLocal(s)
  }

  // ---------------------------------------------------------------- why

  lemma {:induction false} DrainedMachine(c: Control, events: seq<Event>, cfg: Config)
    ensures var d := ApplyAll(c, events, cfg);
      && d.machine == StepAll(c.machine, events)
      && d.armStarted == ArmedAt(c.machine, events, c.armStarted, c.frame)
      && d.frame == c.frame && d.lastHeartbeat == c.lastHeartbeat
  {
    if events != [] {
      var front, last := events[..|events| - 1], events[|events| - 1];
      DrainedMachine(c, front, cfg);
      ApplyAllLast(c, front, last, cfg);
      assert events == front + [last];
    }
  }

  lemma ReadingStateIs(c: Control, cfg: Config)
    ensures Decided(c, cfg).State() == ReadingState(c, cfg)
  {
    DrainedMachine(c.(pending := []), c.pending, cfg);
    TimedState(Drain(c, cfg), cfg);
  }

  lemma TimedState(d: Control, cfg: Config)
    ensures Timers(d, cfg).State() ==
      match d.State()
      case ErrorRecovery => RestingState(d.machine.mode)
      case PhoneArming => if d.frame - d.armStarted > cfg.ArmFrames() then ErrorRecovery else PhoneArming
      case PhoneActive => if d.frame - d.lastHeartbeat > cfg.LostFrames() then ReturningToLocal else PhoneActive
      case s => s
  {
  }

  /** Reading the phone, from the decided state. */
  lemma ReadsPhoneIff(d: Control, src: Sources, cfg: Config)
    requires Aimed(d, cfg)
    ensures ReadsPhone(d, src, cfg) <==>
            d.gate.position != GateTarget(d.State())
            || (WantsPhone(d.State()) && !(src.local.Failing? && WantsLocal(d.State())))
  {
  }

  function SamplesOf(s: Source): Samples {
    if s.Delivering? then s.samples else Silence()
  }

  /** The exact condition, in every settled state and whatever is waiting: what a source
      delivers is in the frame when `CarriesPhone` or `CarriesLocal` holds before the tick,
      and replaced by silence when it does not. */
  lemma FramesIff(c: Control, src: Sources, cfg: Config)
    requires Settled(c, cfg)
    ensures PhoneFrame(Decided(c, cfg), src, cfg)
         == if CarriesPhone(c, src.local.Failing?, cfg) then SamplesOf(src.phone) else Silence()
    ensures LocalFrame(Decided(c, cfg), src) == if CarriesLocal(c, cfg) then SamplesOf(src.local) else Silence()
  {
    DecidedKeeps(c, cfg);
    ReadingStateIs(c, cfg);
    DecisionsKeepGate(c, cfg);
    ReadsPhoneIff(Decided(c, cfg), src, cfg);
  }

  /** Every source that the crossfade lets through, whatever it delivers, is in the frame. */
  ghost predicate Continuous(c: Control, cfg: Config) {
    forall src: Sources | src.local.Delivering? && src.phone.Delivering? ::
      && (c.fade.position > 0.0 ==> PhoneFrame(Decided(c, cfg), src, cfg) == src.phone.samples)
      && (c.fade.position < 1.0 ==> LocalFrame(Decided(c, cfg), src) == src.local.samples)
  }

  const LOUD: Samples := seq(FRAME_SAMPLES, _ => 1.0)

  /** Sample continuity, exactly: off the local end the phone must be carried, and off the
      phone end the local microphone. */
  lemma ContinuousIff(c: Control, cfg: Config)
    requires Settled(c, cfg)
    ensures Continuous(c, cfg) <==>
      (c.fade.position > 0.0 ==> CarriesPhone(c, false, cfg)) && (c.fade.position < 1.0 ==> CarriesLocal(c, cfg))
  {
    forall src: Sources | src.local.Delivering? && src.phone.Delivering?
      ensures PhoneFrame(Decided(c, cfg), src, cfg) == if CarriesPhone(c, false, cfg) then src.phone.samples else Silence()
      ensures LocalFrame(Decided(c, cfg), src) == if CarriesLocal(c, cfg) then src.local.samples else Silence()
    {
      FramesIff(c, src, cfg);
    }
    var loud := Sources(Delivering(LOUD), Delivering(LOUD));
    assert LOUD[0] != Silence()[0];
    assert loud.local.Delivering? && loud.phone.Delivering?;
    FramesIff(c, loud, cfg);
  }

  // ---------------------------------------------------------------- which events cut

  /** What the control surface can post. */
  predicate Postable(e: Event) {
    IsModeEvent(e) || e.StartPtt? || e.StopPtt? || e.PhoneReady? || e.PhoneLost?
  }

  lemma OneWaiting(m: Machine, e: Event, stamp: nat, frame: nat)
    ensures StepAll(m, [e]) == Step(m, e)
    ensures ArmedAt(m, [e], stamp, frame)
         == if Step(m, e).state.PhoneArming? && !m.state.PhoneArming? then frame else stamp
  {
    assert [e][..0] == [];
  }

  /** A single event at a source that is wanted, with the gate open. */
  lemma OneEventReads(c: Control, e: Event, cfg: Config)
    requires ModeAgrees(c.machine) && c.gate.position == 1.0 && c.pending == [e] && Postable(e)
    ensures WantsPhone(c.State()) ==>
      (!CarriesPhone(c, false, cfg) <==> e.ModeLocalOnly? || e.ModeAuto? || (e.StartPtt? && c.State().ReturningToLocal?))
    ensures WantsLocal(c.State()) ==> (!CarriesLocal(c, cfg) <==> e.ModePhoneOnly?)
  {
    OneWaiting(c.machine, e, c.armStarted, c.frame);
  }

  lemma NoEventReads(c: Control, cfg: Config)
    requires ModeAgrees(c.machine) && c.gate.position == 1.0 && c.pending == []
    ensures WantsPhone(c.State()) ==> CarriesPhone(c, false, cfg)
    ensures WantsLocal(c.State()) ==> CarriesLocal(c, cfg)
  {
  }

  /** With the gate open and still, and the phone wanted so far: nothing waiting never cuts
      it, and one waiting event does exactly when it selects the local microphone or is a
      press that arms again while the phone is fading out. */
  lemma OneEventCuts(c: Control, cfg: Config)
    requires Settled(c, cfg) && WantsPhone(c.State()) && c.gate.position == 1.0
    ensures c.pending == [] ==> CarriesPhone(c, false, cfg)
    ensures |c.pending| == 1 && Postable(c.pending[0]) ==>
      var e := c.pending[0];
      !CarriesPhone(c, false, cfg) <==>
        e.ModeLocalOnly? || e.ModeAuto? || (e.StartPtt? && c.State().ReturningToLocal?)
  {
    if c.pending == [] {
      NoEventReads(c, cfg);
    } else if |c.pending| == 1 && Postable(c.pending[0]) {
      assert c.pending == [c.pending[0]];
      OneEventReads(c, c.pending[0], cfg);
    }
  }

  /** Likewise the local microphone, wanted so far, is cut by exactly one event: the selection
      of the phone alone. */
  lemma OneEventCutsLocal(c: Control, cfg: Config)
    requires Settled(c, cfg) && WantsLocal(c.State()) && c.gate.position == 1.0
    ensures c.pending == [] ==> CarriesLocal(c, cfg)
    ensures |c.pending| == 1 && Postable(c.pending[0]) ==>
      (!CarriesLocal(c, cfg) <==> c.pending[0].ModePhoneOnly?)
  {
    if c.pending == [] {
      NoEventReads(c, cfg);
    } else if |c.pending| == 1 && Postable(c.pending[0]) {
      assert c.pending == [c.pending[0]];
      OneEventReads(c, c.pending[0], cfg);
    }
  }

  /** Selecting the local microphone while the phone is live: the phone's samples are gone
      although the crossfade has not left the phone yet, and moves on without a jump. */
  lemma LeavingPhoneCutsSamples(c: Control, src: Sources, cfg: Config)
    requires Settled(c, cfg)
    requires c.State().PhoneActive? && c.pending == [ModeLocalOnly] && !c.gate.Active()
    requires c.fade.position == 1.0 && !src.local.Failing?
    ensures PhoneFrame(Decided(c, cfg), src, cfg) == Silence()
    ensures var fade := AfterSources(Decided(c, cfg), src, cfg).fade;
      fade.position == 1.0 && Gentle(fade, AdvanceN(fade, 1), cfg.crossfadeMs)
  {
    OneEventCuts(c, cfg);
    FramesIff(c, src, cfg);
    GainsNeverJump(c, src, cfg, 0);
    assert AdvanceN(AfterSources(Decided(c, cfg), src, cfg).fade, 0)
        == AfterSources(Decided(c, cfg), src, cfg).fade;
  }

  // ---------------------------------------------------------------- a run that cuts

  const QUIET: Sources := Sources(Absent, Absent)

  /** A press, its frame, the acknowledgement, its frame, and the local microphone selected. */
  function CuttingRun(): seq<Call> {
    [] + [Commanded(PressPtt)] + [Ticked(QUIET)] + [Commanded(NotifyReady)] + [Ticked(QUIET)]
    + [Commanded(Command.SetMode(LocalOnlyMode))]
  }

  lemma RunLast(calls: seq<Call>, call: Call, cfg: Config)
    ensures AfterCalls(calls + [call], cfg) == After1(AfterCalls(calls, cfg), call, cfg)
  {
    assert (calls + [call])[..|calls|] == calls;
  }

  lemma {:induction false} RisingStaysUp(r: Ramp, n: nat)
    requires r.WellFormed() && r.target == 1.0 && n > 0
    ensures AdvanceN(r, n).position > 0.0
  {
    LandsExactly(r, n - 1);
    var before := AdvanceN(r, n - 1);
    if before.remaining > 0 {
      Rises(before);
    }
  }

  lemma Rises(r: Ramp)
    requires r.WellFormed() && r.target == 1.0 && r.remaining > 0
    ensures Advance(r).position > 0.0
  {
    AdvanceKeeps(r);
    ProductSign(r.step, r.remaining);
  }

  lemma ProductSign(step: real, n: nat)
    ensures step <= 0.0 ==> step * n as real <= 0.0
  {
  }

  /** One event and a frame of two absent sources. */
  lemma QuietTick(c: Control, e: Event, cfg: Config)
    requires Settled(c, cfg) && c.pending == [e]
    requires (e == StartPtt && c.State().LocalActive?) || (e == PhoneReady && c.State().PhoneArming?)
    requires c.machine.mode.AutoMode? && c.lastHeartbeat == c.frame
    ensures var t := Tick(c, QUIET, cfg);
      && t.machine == Step(c.machine, e) && t.gate.position == AdvanceN(Decided(c, cfg).gate, FRAME_SAMPLES).position
      && t.fade == AdvanceN(Decided(c, cfg).fade, FRAME_SAMPLES)
      && Decided(c, cfg) == ApplyEvent(c.(pending := []), e, cfg)
  {
    assert c.pending == [] + [e];
    ApplyAllLast(c.(pending := []), [], e, cfg);
    DecidedKeeps(c, cfg);
    SourcesKeep(Decided(c, cfg), QUIET, cfg);
    MixKeeps(Decided(c, cfg), cfg);
  }

  lemma Idle(r: Ramp, t: real, ms: nat)
    requires r.WellFormed() && r.position == t && r.remaining == 0 && 0.0 <= t <= 1.0
    ensures AdvanceN(Retarget(r, t, ms), FRAME_SAMPLES).position == t
  {
    IdleRampStays(Retarget(r, t, ms), FRAME_SAMPLES);
  }

  /** What the press leaves: arming, with the gate open and still. */
  lemma Pressed(c: Control, cfg: Config)
    requires c == Issue(START, PressPtt)
    ensures var t := Tick(c, QUIET, cfg);
      Settled(t, cfg) && t.machine == Machine(PhoneArming, AutoMode) && t.gate.position == 1.0 && t.pending == []
  {
    assert Settled(c, cfg);
    TickKeeps(c, QUIET, cfg);
    QuietTick(c, StartPtt, cfg);
    Idle(c.gate, 1.0, cfg.crossfadeMs);
  }

  predicate Told(c: Control) {
    && c.machine == Machine(PhoneArming, AutoMode) && c.gate.position == 1.0
    && c.pending == [PhoneReady] && c.lastHeartbeat == c.frame
  }

  lemma ToldCarries(c: Control, cfg: Config)
    requires Told(c)
    ensures CarriesPhone(c, false, cfg)
  {
    assert c.pending == [] + [PhoneReady] && c.pending[..0] == [];
    assert StepAll(c.machine, c.pending) == Step(c.machine, PhoneReady);
  }

  lemma ToldGoesLive(c: Control, cfg: Config)
    requires Settled(c, cfg) && Told(c)
    ensures var t := Tick(c, QUIET, cfg);
      t.machine == Machine(PhoneActive, AutoMode) && t.gate.position == 1.0
  {
    QuietTick(c, PhoneReady, cfg);
    Idle(c.gate, 1.0, cfg.crossfadeMs);
  }

  lemma ToldFadesUp(c: Control, cfg: Config)
    requires Settled(c, cfg) && Told(c)
    ensures Tick(c, QUIET, cfg).fade.position > 0.0
  {
    QuietTick(c, PhoneReady, cfg);
    RetargetKeeps(c.fade, 1.0, cfg.crossfadeMs);
    RisingStaysUp(Retarget(c.fade, 1.0, cfg.crossfadeMs), FRAME_SAMPLES);
  }

  /** What the acknowledgement leaves: live, and the crossfade off the local end. */
  lemma Acknowledged(c: Control, cfg: Config)
    requires Settled(c, cfg) && Told(c)
    ensures var t := Tick(c, QUIET, cfg);
      && CarriesPhone(c, false, cfg)
      && Settled(t, cfg) && t.machine == Machine(PhoneActive, AutoMode) && t.gate.position == 1.0 && t.pending == []
      && t.fade.position > 0.0
  {
    TickKeeps(c, QUIET, cfg);
    ToldCarries(c, cfg);
    ToldGoesLive(c, cfg);
    ToldFadesUp(c, cfg);
  }

  lemma CutIsHeard(cut: Control, cfg: Config)
    requires Settled(cut, cfg) && !CarriesPhone(cut, false, cfg) && cut.fade.position > 0.0
    ensures !Continuous(cut, cfg)
  {
    ContinuousIff(cut, cfg);
  }

  lemma LocalOnlyCuts(cut: Control, cfg: Config)
    requires ModeAgrees(cut.machine) && cut.State().PhoneActive? && cut.gate.position == 1.0
    requires cut.pending == [ModeLocalOnly]
    ensures !CarriesPhone(cut, false, cfg)
  {
    OneEventReads(cut, ModeLocalOnly, cfg);
  }

  lemma LocalCuts(c: Control, cfg: Config)
    requires Settled(c, cfg) && c.State().PhoneActive? && c.gate.position == 1.0 && c.pending == []
    ensures var cut := Issue(c, Command.SetMode(LocalOnlyMode));
      !CarriesPhone(cut, false, cfg) && (c.fade.position > 0.0 ==> !Continuous(cut, cfg))
  {
    var cut := Issue(c, Command.SetMode(LocalOnlyMode));
    assert cut.pending == [ModeLocalOnly];
    LocalOnlyCuts(cut, cfg);
    if c.fade.position > 0.0 {
      CutIsHeard(cut, cfg);
    }
  }

  /** The failing state is reached in every configuration: the frame before still carried
      the phone, the crossfade is off the local end, and the coming frame does not carry it. */
  lemma CuttingRunCuts(cfg: Config)
    ensures var calls := CuttingRun();
      var live, last := AfterCalls(calls[..3], cfg), AfterCalls(calls, cfg);
      && calls[3] == Ticked(QUIET) && CarriesPhone(live, false, cfg)
      && last.State().PhoneActive? && last.fade.position > 0.0
      && !CarriesPhone(last, false, cfg) && !Continuous(last, cfg)
  {
    var calls := CuttingRun();
    var pressed := Issue(START, PressPtt);
    var arming := Tick(pressed, QUIET, cfg);
    var told := Issue(arming, NotifyReady);
    Pressed(pressed, cfg);
    Acknowledged(told, cfg);
    Prefixes(cfg);
    LocalCuts(Tick(told, QUIET, cfg), cfg);
  }

  /** So is one that cuts the local microphone: a frame, and the phone alone selected. */
  lemma LocalCutRun(cfg: Config)
    ensures var calls := [] + [Ticked(QUIET)] + [Commanded(Command.SetMode(PhoneOnlyMode))];
      var last := AfterCalls(calls, cfg);
      && CarriesLocal(START, cfg) && last.State().LocalActive? && last.fade.position == 0.0
      && !CarriesLocal(last, cfg) && !Continuous(last, cfg)
  {
    var tick := [] + [Ticked(QUIET)];
    RunLast([], Ticked(QUIET), cfg);
    RunLast(tick, Commanded(Command.SetMode(PhoneOnlyMode)), cfg);
    EveryRunSettles([], cfg);
    FirstFrame(cfg);
    var last := Issue(Tick(START, QUIET, cfg), Command.SetMode(PhoneOnlyMode));
    OneEventCutsLocal(last, cfg);
    ContinuousIff(last, cfg);
  }

  lemma FirstFrame(cfg: Config)
    ensures var t := Tick(START, QUIET, cfg);
      && Settled(t, cfg) && t.State().LocalActive? && t.pending == []
      && t.gate.position == 1.0 && t.fade.position == 0.0 && CarriesLocal(START, cfg)
  {
    EveryRunSettles([], cfg);
    TickKeeps(START, QUIET, cfg);
    assert Decided(START, cfg) == START;
    SourcesKeep(START, QUIET, cfg);
    IdleRampStays(START.fade, FRAME_SAMPLES);
    IdleRampStays(START.gate, FRAME_SAMPLES);
  }

  lemma Prefixes(cfg: Config)
    ensures var calls := CuttingRun();
      var told := Issue(Tick(Issue(START, PressPtt), QUIET, cfg), NotifyReady);
      && calls[3] == Ticked(QUIET)
      && AfterCalls(calls[..3], cfg) == told
      && AfterCalls(calls, cfg) == Issue(Tick(told, QUIET, cfg), Command.SetMode(LocalOnlyMode))
  {
    var a, b := [] + [Commanded(PressPtt)], [] + [Commanded(PressPtt)] + [Ticked(QUIET)];
    var c := b + [Commanded(NotifyReady)];
    RunLast([], Commanded(PressPtt), cfg);
    RunLast(a, Ticked(QUIET), cfg);
    RunLast(b, Commanded(NotifyReady), cfg);
    RunLast(c, Ticked(QUIET), cfg);
    RunLast(c + [Ticked(QUIET)], Commanded(Command.SetMode(LocalOnlyMode)), cfg);
    assert CuttingRun()[..3] == c;
  }
}
