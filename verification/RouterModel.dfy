/** What one call of the audio router does, on values: the control surface, one tick and
    the frame it produces (windows/audio-service/src/router.cpp).  Module Routers proves
    the class against these functions; module RouterRuns proves what they promise. */
module RouterModel {
  import opened Crossfading
  import opened SourceStates
  import RingBuffers

  const FRAME_MILLIS: nat := 20
  const FRAME_SAMPLES: nat := MillisToSamples(FRAME_MILLIS)
  const EVENT_SLOTS: nat := 256
  const CEILING: real := 0.999

  datatype Config = Config(
    crossfadeMs: nat, armTimeoutMs: nat, phoneLostTimeoutMs: nat,
    localGain: real, phoneGain: real, curve: Curve)
  {
    function ArmFrames(): nat { FramesFor(armTimeoutMs) }
    function LostFrames(): nat { FramesFor(phoneLostTimeoutMs) }
    function FadeSamples(): nat { FullSamples(crossfadeMs) }
  }

  function FramesFor(ms: nat): (n: nat)
    ensures n >= 1
  {
    if ms / FRAME_MILLIS < 1 then 1 else ms / FRAME_MILLIS
  }

  /** Everything in the router that decides what is heard, apart from the samples. */
  datatype Control = Control(
    machine: Machine, fade: Ramp, gate: Ramp, pending: seq<Event>,
    frame: nat, armStarted: nat, lastHeartbeat: nat)
  {
    function State(): SourceState { machine.state }
  }

  const START: Control := Control(INITIAL, Snap(0.0), Ramp(1.0, 1.0, 0.0, 0), [], 0, 0, 0)

  // ---------------------------------------------------------------- control surface

  datatype Command =
    | SetMode(mode: RoutingMode) | PressPtt | ReleasePtt | NotifyReady | NotifyHeartbeat | NotifyGone

  function ModeEvent(m: RoutingMode): Event {
    match m
    case AutoMode => ModeAuto
    case PhoneOnlyMode => ModePhoneOnly
    case LocalOnlyMode => ModeLocalOnly
    case MuteMode => ModeMute
  }

  /** A full queue forgets its oldest event. */
  function Posted(pending: seq<Event>, e: Event): seq<Event> {
    RingBuffers.Newest(pending + [e], EVENT_SLOTS)
  }

  function Post(c: Control, e: Event): Control {
    c.(pending := Posted(c.pending, e))
  }

  /** Commands only post an event or note liveness; decisions wait for the tick. */
  function Issue(c: Control, cmd: Command): Control {
    match cmd
    case SetMode(m) => Post(c, ModeEvent(m))
    case PressPtt => Post(c.(lastHeartbeat := c.frame), StartPtt)
    case ReleasePtt => Post(c, StopPtt)
    case NotifyReady => Post(c.(lastHeartbeat := c.frame), PhoneReady)
    case NotifyHeartbeat => c.(lastHeartbeat := c.frame)
    case NotifyGone => Post(c, PhoneLost)
  }

  // ---------------------------------------------------------------- events

  predicate Silent(s: SourceState) {
    s.Muted? || s.ErrorRecovery?
  }

  predicate PhoneAudible(s: SourceState) {
    s.PhoneActive? || s.PhoneOnly?
  }

  function GateTarget(s: SourceState): real {
    if Silent(s) then 0.0 else 1.0
  }

  function FadeTarget(s: SourceState): real {
    if PhoneAudible(s) then 1.0 else 0.0
  }

  /** A change of state retargets both ramps; recovery leaves the crossfade where it is. */
  function ApplyEvent(c: Control, e: Event, cfg: Config): Control {
    var m := Step(c.machine, e);
    if m.state == c.machine.state then c.(machine := m) else Entered(c, m, cfg)
  }

  /** The same, given what the state machine did. */
  lemma ApplyEventIs(c: Control, m: Machine, e: Event, cfg: Config)
    requires m == Step(c.machine, e)
    ensures m.state == c.machine.state ==> ApplyEvent(c, e, cfg) == c.(machine := m)
    ensures m.state != c.machine.state ==> ApplyEvent(c, e, cfg) == Entered(c, m, cfg)
  {
  }

  function Entered(c: Control, m: Machine, cfg: Config): Control {
    c.(machine := m,
       gate := Retarget(c.gate, GateTarget(m.state), cfg.crossfadeMs),
       fade := if m.state.ErrorRecovery? then c.fade
               else Retarget(c.fade, FadeTarget(m.state), cfg.crossfadeMs),
       armStarted := if m.state.PhoneArming? then c.frame else c.armStarted)
  }

  lemma ApplyIgnoresPending(c: Control, e: Event, pending: seq<Event>, cfg: Config)
    ensures ApplyEvent(c.(pending := pending), e, cfg) == ApplyEvent(c, e, cfg).(pending := pending)
  {
  }

  lemma ApplyAllFirst(c: Control, e: Event, rest: seq<Event>, cfg: Config)
    ensures ApplyAll(c, [e] + rest, cfg) == ApplyAll(ApplyEvent(c, e, cfg), rest, cfg)
  {
    assert ([e] + rest)[1..] == rest;
  }

  /** One turn of the drain loop. */
  lemma ApplyAllTurn(before: Control, e: Event, rest: seq<Event>, cfg: Config)
    ensures ApplyAll(before.(pending := []), [e] + rest, cfg)
         == ApplyAll(ApplyEvent(before, e, cfg).(pending := []), rest, cfg)
  {
    ApplyAllFirst(before.(pending := []), e, rest, cfg);
    ApplyIgnoresPending(before, e, [], cfg);
  }

  function ApplyAll(c: Control, events: seq<Event>, cfg: Config): Control
    decreases |events|
  {
    if events == [] then c
    else ApplyAll(ApplyEvent(c, events[0], cfg), events[1..], cfg)
  }

  lemma {:induction false} ApplyAllLast(c: Control, events: seq<Event>, e: Event, cfg: Config)
    ensures ApplyAll(c, events + [e], cfg) == ApplyEvent(ApplyAll(c, events, cfg), e, cfg)
    decreases |events|
  {
    if events == [] {
      assert [e][1..] == [];
    } else {
      ApplyAllLast(ApplyEvent(c, events[0], cfg), events[1..], e, cfg);
      assert (events + [e])[1..] == events[1..] + [e];
    }
  }

  function Drain(c: Control, cfg: Config): Control {
    ApplyAll(c.(pending := []), c.pending, cfg)
  }

  predicate ArmExpired(c: Control, cfg: Config) {
    c.State().PhoneArming? && c.frame - c.armStarted > cfg.ArmFrames()
  }

  predicate PhoneExpired(c: Control, cfg: Config) {
    c.State().PhoneActive? && c.frame - c.lastHeartbeat > cfg.LostFrames()
  }

  function Timers(c: Control, cfg: Config): Control {
    if c.State().ErrorRecovery? then ApplyEvent(c, Recovered, cfg)
    else if ArmExpired(c, cfg) then ApplyEvent(c, ArmTimeout, cfg)
    else if PhoneExpired(c, cfg) then ApplyEvent(c, PhoneLost, cfg)
    else c
  }

  // ---------------------------------------------------------------- sources

  type Samples = s: seq<real> | |s| == FRAME_SAMPLES witness seq(FRAME_SAMPLES, _ => 0.0)

  /** What a source would answer if it were read in this tick. */
  datatype Source = Absent | Failing | Delivering(samples: Samples)

  datatype Sources = Sources(local: Source, phone: Source)

  function Silence(): Samples {
    seq(FRAME_SAMPLES, _ => 0.0)
  }

  function Filled(s: Source, wanted: bool): Samples {
    if wanted && s.Delivering? then s.samples else Silence()
  }

  function AfterRead(c: Control, s: Source, wanted: bool, cfg: Config): Control {
    if wanted && s.Failing? then ApplyEvent(c, SourceFailure, cfg) else c
  }

  /** While the gate is moving both sources are read, so that it has something to fade. */
  predicate ReadsLocal(c: Control) {
    WantsLocal(c.State()) || c.gate.Active()
  }

  function AfterLocal(c: Control, src: Sources, cfg: Config): Control {
    AfterRead(c, src.local, ReadsLocal(c), cfg)
  }

  predicate ReadsPhone(c: Control, src: Sources, cfg: Config) {
    WantsPhone(AfterLocal(c, src, cfg).State()) || c.gate.Active()
  }

  function AfterSources(c: Control, src: Sources, cfg: Config): Control {
    AfterRead(AfterLocal(c, src, cfg), src.phone, ReadsPhone(c, src, cfg), cfg)
  }

  function LocalFrame(c: Control, src: Sources): Samples {
    Filled(src.local, ReadsLocal(c))
  }

  function PhoneFrame(c: Control, src: Sources, cfg: Config): Samples {
    Filled(src.phone, ReadsPhone(c, src, cfg))
  }

  // ---------------------------------------------------------------- mixing

  function Limit(s: real): real {
    if s > CEILING then CEILING else if s < -CEILING then -CEILING else s
  }

  /** The two sources under their gains and the gate. */
  function Blend(local: real, phone: real, gains: GainPair, opening: real, cfg: Config): real {
    (local * gains.local * cfg.localGain + phone * gains.phone * cfg.phoneGain) * opening
  }

  function MixSample(local: real, phone: real, position: real, gate: real, cfg: Config): real {
    var gains := GainPair(cfg.curve.local(position), cfg.curve.phone(position));
    Limit(Blend(local, phone, gains, cfg.curve.gate(gate), cfg))
  }

  /** Sample i is mixed with both ramps i + 1 samples further on. */
  function Mix(c: Control, local: Samples, phone: Samples, cfg: Config): Samples {
    seq(FRAME_SAMPLES, i requires 0 <= i < FRAME_SAMPLES =>
      MixSample(local[i], phone[i], AdvanceN(c.fade, i + 1).position, AdvanceN(c.gate, i + 1).position, cfg))
  }

  function AfterMix(c: Control): Control {
    c.(fade := AdvanceN(c.fade, FRAME_SAMPLES), gate := AdvanceN(c.gate, FRAME_SAMPLES))
  }

  // ---------------------------------------------------------------- one tick

  function Decided(c: Control, cfg: Config): Control {
    Timers(Drain(c, cfg), cfg)
  }

  function Mixed(c: Control, src: Sources, cfg: Config): Control {
    AfterMix(AfterSources(Decided(c, cfg), src, cfg))
  }

  function CloseFade(c: Control, cfg: Config): Control {
    if c.State().ReturningToLocal? && !c.fade.Active() then ApplyEvent(c, FadeComplete, cfg) else c
  }

  function Tick(c: Control, src: Sources, cfg: Config): Control {
    var m := Mixed(c, src, cfg);
    CloseFade(m.(frame := m.frame + 1), cfg)
  }

  lemma TickStages(c: Control, mixed: Control, counted: Control, src: Sources, cfg: Config)
    requires mixed == Mixed(c, src, cfg) && counted == mixed.(frame := mixed.frame + 1)
    ensures Tick(c, src, cfg) == CloseFade(counted, cfg)
  {
  }

  function Output(c: Control, src: Sources, cfg: Config): Samples {
    var d := Decided(c, cfg);
    Mix(AfterSources(d, src, cfg), LocalFrame(d, src), PhoneFrame(d, src, cfg), cfg)
  }
}
