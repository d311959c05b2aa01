/** What is heard: the samples that the router hands to its sink, told from the samples of the
    two sources (windows/audio-service/src/router.cpp).  A sample is never beyond 0.999 of full
    scale; a sum that would be is cut there. */
module RouterOutput {
  import opened Crossfading
  import opened SourceStates
  import opened RouterModel
  import opened RouterRuns
  import opened SampleContinuity

  /** The value itself, cut at 0.999 of full scale. */
  predicate CutTo(out: real, x: real) {
    && (-0.999 <= x <= 0.999 ==> out == x)
    && (x > 0.999 ==> out == 0.999) && (x < -0.999 ==> out == -0.999)
  }

  predicate Uncut(out: real) {
    -0.999 < out < 0.999
  }

  /** The control state that the frame is mixed in. */
  function AtMixing(c: Control, src: Sources, cfg: Config): Control {
    AfterSources(Decided(c, cfg), src, cfg)
  }

  /** At sample i of the frame the ramp is at t. */
  predicate Arrived(r: Ramp, t: real, i: nat) {
    r.target == t && r.remaining <= i + 1
  }

  lemma ArrivedAt(r: Ramp, t: real, i: nat)
    requires r.WellFormed() && Arrived(r, t, i)
    ensures AdvanceN(r, i + 1).position == t
  {
    LandsExactly(r, i + 1);
  }

  // ---------------------------------------------------------------- one sample

  lemma NeverBeyondCeiling(c: Control, src: Sources, cfg: Config, i: nat)
    requires i < FRAME_SAMPLES
    ensures -0.999 <= Output(c, src, cfg)[i] <= 0.999
  {
  }

  lemma OneSource(local: real, phone: real, cfg: Config)
    requires cfg.curve.Ideal()
    ensures CutTo(MixSample(local, phone, 0.0, 1.0, cfg), local * cfg.localGain)
    ensures CutTo(MixSample(local, phone, 1.0, 1.0, cfg), phone * cfg.phoneGain)
  {
    OnlyLocal(local, phone, cfg);
    OnlyPhone(local, phone, cfg);
  }

  lemma OnlyLocal(local: real, phone: real, cfg: Config)
    ensures Blend(local, phone, GainPair(1.0, 0.0), 1.0, cfg) == local * cfg.localGain
  {
    assert phone * 0.0 * cfg.phoneGain == 0.0;
  }

  lemma OnlyPhone(local: real, phone: real, cfg: Config)
    ensures Blend(local, phone, GainPair(0.0, 1.0), 1.0, cfg) == phone * cfg.phoneGain
  {
    assert local * 0.0 * cfg.localGain == 0.0;
  }

  /** A sample under the ramps of a control state. */
  function Under(m: Control, local: real, phone: real, cfg: Config, i: nat): real {
    MixSample(local, phone, AdvanceN(m.fade, i + 1).position, AdvanceN(m.gate, i + 1).position, cfg)
  }

  /** At either end of the crossfade, with the gate open. */
  lemma AtTheEnds(m: Control, out: real, local: real, phone: real, cfg: Config, i: nat)
    requires m.fade.WellFormed() && m.gate.WellFormed() && cfg.curve.Ideal() && Arrived(m.gate, 1.0, i)
    requires out == Under(m, local, phone, cfg, i)
    ensures Arrived(m.fade, 0.0, i) ==> CutTo(out, local * cfg.localGain)
    ensures Arrived(m.fade, 1.0, i) ==> CutTo(out, phone * cfg.phoneGain)
  {
    OneSource(local, phone, cfg);
    ArrivedAt(m.gate, 1.0, i);
    LandsExactly(m.fade, i + 1);
  }

  lemma Entering(c: Control, src: Sources, cfg: Config)
    requires Settled(c, cfg)
    ensures AtMixing(c, src, cfg).fade.WellFormed() && AtMixing(c, src, cfg).gate.WellFormed()
  {
    FrameEntered(c, src, cfg);
  }

  /** The sample is that of a source under its gain. */
  ghost predicate HeardAs(out: Samples, i: nat, x: Samples, gain: real)
    requires i < FRAME_SAMPLES
  {
    CutTo(out[i], x[i] * gain)
  }

  lemma MixIsHeard(m: Control, local: Samples, phone: Samples, out: Samples, cfg: Config, i: nat)
    requires m.fade.WellFormed() && m.gate.WellFormed() && cfg.curve.Ideal() && Arrived(m.gate, 1.0, i)
    requires i < FRAME_SAMPLES && out == Mix(m, local, phone, cfg)
    ensures Arrived(m.fade, 0.0, i) ==> HeardAs(out, i, local, cfg.localGain)
    ensures Arrived(m.fade, 1.0, i) ==> HeardAs(out, i, phone, cfg.phoneGain)
  {
    AtTheEnds(m, out[i], local[i], phone[i], cfg, i);
  }

  lemma FrameIs(c: Control, src: Sources, cfg: Config) returns (local: Samples, phone: Samples)
    requires Settled(c, cfg)
    ensures Output(c, src, cfg) == Mix(AtMixing(c, src, cfg), local, phone, cfg)
    ensures src.local.Delivering? && CarriesLocal(c, cfg) ==> local == src.local.samples
    ensures src.phone.Delivering? && CarriesPhone(c, src.local.Failing?, cfg) ==> phone == src.phone.samples
  {
    FramesIff(c, src, cfg);
    local, phone := LocalFrame(Decided(c, cfg), src), PhoneFrame(Decided(c, cfg), src, cfg);
  }

  /** With the gate open and the crossfade at the local end, the sample is the local
      microphone's under its gain. */
  lemma LocalIsHeard(c: Control, src: Sources, cfg: Config, i: nat)
    requires Settled(c, cfg) && cfg.curve.Ideal() && i < FRAME_SAMPLES
    requires Arrived(AtMixing(c, src, cfg).fade, 0.0, i) && Arrived(AtMixing(c, src, cfg).gate, 1.0, i)
    requires src.local.Delivering? && CarriesLocal(c, cfg)
    ensures HeardAs(Output(c, src, cfg), i, src.local.samples, cfg.localGain)
  {
    Entering(c, src, cfg);
    var local, phone := FrameIs(c, src, cfg);
    MixIsHeard(AtMixing(c, src, cfg), local, phone, Output(c, src, cfg), cfg, i);
  }

  /** At the phone end, it is the phone's. */
  lemma PhoneIsHeard(c: Control, src: Sources, cfg: Config, i: nat)
    requires Settled(c, cfg) && cfg.curve.Ideal() && i < FRAME_SAMPLES
    requires Arrived(AtMixing(c, src, cfg).fade, 1.0, i) && Arrived(AtMixing(c, src, cfg).gate, 1.0, i)
    requires src.phone.Delivering? && CarriesPhone(c, src.local.Failing?, cfg)
    ensures HeardAs(Output(c, src, cfg), i, src.phone.samples, cfg.phoneGain)
  {
    Entering(c, src, cfg);
    var local, phone := FrameIs(c, src, cfg);
    MixIsHeard(AtMixing(c, src, cfg), local, phone, Output(c, src, cfg), cfg, i);
  }

  // ---------------------------------------------------------------- both at once

  /** The frame of each source alone, the other one delivering silence. */
  function LocalAlone(c: Control, a: Samples, cfg: Config): Samples {
    Output(c, Sources(Delivering(a), Delivering(Silence())), cfg)
  }

  function PhoneAlone(c: Control, b: Samples, cfg: Config): Samples {
    Output(c, Sources(Delivering(Silence()), Delivering(b)), cfg)
  }

  /** At every position of both ramps the sources add up: where neither is cut alone, the
      sample of both is the sum, cut. */
  lemma SourcesAdd(c: Control, a: Samples, b: Samples, cfg: Config, i: nat)
    requires i < FRAME_SAMPLES
    requires Uncut(LocalAlone(c, a, cfg)[i]) && Uncut(PhoneAlone(c, b, cfg)[i])
    ensures CutTo(Output(c, Sources(Delivering(a), Delivering(b)), cfg)[i],
                  LocalAlone(c, a, cfg)[i] + PhoneAlone(c, b, cfg)[i])
  {
    var d := Decided(c, cfg);
    var both := Sources(Delivering(a), Delivering(b));
    var local, phone := Sources(Delivering(a), Delivering(Silence())), Sources(Delivering(Silence()), Delivering(b));
    SameControl(d, both, local, cfg);
    SameControl(d, both, phone, cfg);
    var fade, gate := AdvanceN(d.fade, i + 1).position, AdvanceN(d.gate, i + 1).position;
    SampleAdds(LocalFrame(d, both)[i], PhoneFrame(d, both, cfg)[i], fade, gate, cfg);
  }

  /** Sources that deliver decide nothing. */
  lemma SameControl(d: Control, a: Sources, b: Sources, cfg: Config)
    requires Calm(a) && Calm(b)
    ensures AfterSources(d, a, cfg) == d && AfterSources(d, b, cfg) == d
    ensures ReadsPhone(d, a, cfg) == ReadsPhone(d, b, cfg)
  {
  }

  lemma SampleAdds(local: real, phone: real, fade: real, gate: real, cfg: Config)
    requires Uncut(MixSample(local, 0.0, fade, gate, cfg)) && Uncut(MixSample(0.0, phone, fade, gate, cfg))
    ensures CutTo(MixSample(local, phone, fade, gate, cfg),
                  MixSample(local, 0.0, fade, gate, cfg) + MixSample(0.0, phone, fade, gate, cfg))
  {
    BlendAdds(local, phone, GainPair(cfg.curve.local(fade), cfg.curve.phone(fade)), cfg.curve.gate(gate), cfg);
  }

  lemma BlendAdds(local: real, phone: real, gains: GainPair, opening: real, cfg: Config)
    ensures Blend(local, phone, gains, opening, cfg)
         == Blend(local, 0.0, gains, opening, cfg) + Blend(0.0, phone, gains, opening, cfg)
  {
    var l, p := local * gains.local * cfg.localGain, phone * gains.phone * cfg.phoneGain;
    assert 0.0 * gains.local * cfg.localGain == 0.0 && 0.0 * gains.phone * cfg.phoneGain == 0.0;
    assert (l + p) * opening == l * opening + p * opening;
  }

  /** In between the crossfade keeps the power: what the mix gives to the same samples on
      either side alone adds up, squared, to the samples squared. */
  lemma CrossfadeKeepsPower(m: Control, x: Samples, cfg: Config, i: nat)
    requires m.fade.WellFormed() && m.gate.WellFormed() && Arrived(m.gate, 1.0, i) && i < FRAME_SAMPLES
    requires cfg.curve.Ideal() && cfg.localGain == cfg.phoneGain
    requires Uncut(Mix(m, x, Silence(), cfg)[i]) && Uncut(Mix(m, Silence(), x, cfg)[i])
    ensures var l, p := Mix(m, x, Silence(), cfg)[i], Mix(m, Silence(), x, cfg)[i];
      l * l + p * p == (x[i] * cfg.localGain) * (x[i] * cfg.localGain)
  {
    ArrivedAt(m.gate, 1.0, i);
    LandsExactly(m.fade, i + 1);
    SamplePower(x[i], AdvanceN(m.fade, i + 1).position, cfg);
  }

  lemma SamplePower(x: real, fade: real, cfg: Config)
    requires cfg.curve.Ideal() && 0.0 <= fade <= 1.0 && cfg.localGain == cfg.phoneGain
    requires Uncut(MixSample(x, 0.0, fade, 1.0, cfg)) && Uncut(MixSample(0.0, x, fade, 1.0, cfg))
    ensures var l, p := MixSample(x, 0.0, fade, 1.0, cfg), MixSample(0.0, x, fade, 1.0, cfg);
      l * l + p * p == (x * cfg.localGain) * (x * cfg.localGain)
  {
    var y := x * cfg.localGain;
    var gains := GainPair(cfg.curve.local(fade), cfg.curve.phone(fade));
    assert 0.0 * gains.local * cfg.localGain == 0.0 && 0.0 * gains.phone * cfg.phoneGain == 0.0;
    assert MixSample(x, 0.0, fade, 1.0, cfg) == y * gains.local;
    assert MixSample(0.0, x, fade, 1.0, cfg) == y * gains.phone;
    Squares(y, gains.local, gains.phone);
  }

  lemma Squares(y: real, a: real, b: real)
    requires a * a + b * b == 1.0
    ensures (y * a) * (y * a) + (y * b) * (y * b) == y * y
  {
    assert (y * a) * (y * a) == (y * y) * (a * a);
    assert (y * b) * (y * b) == (y * y) * (b * b);
    assert (y * y) * (a * a) + (y * y) * (b * b) == (y * y) * (a * a + b * b);
  }

  predicate Scaled(out: real, open: real, part: real) {
    out == open * part
  }

  /** The output gate scales the open gate's sample. */
  lemma GateScales(m: Control, local: Samples, phone: Samples, cfg: Config, i: nat)
    requires m.gate.WellFormed() && cfg.curve.Ideal() && i < FRAME_SAMPLES
    requires Uncut(Mix(m.(gate := Snap(1.0)), local, phone, cfg)[i])
    ensures Scaled(Mix(m, local, phone, cfg)[i], Mix(m.(gate := Snap(1.0)), local, phone, cfg)[i],
                   cfg.curve.gate(AdvanceN(m.gate, i + 1).position))
  {
    LandsExactly(m.gate, i + 1);
    IdleRampStays(Snap(1.0), i + 1);
    var fade, gate := AdvanceN(m.fade, i + 1).position, AdvanceN(m.gate, i + 1).position;
    SampleScales(local[i], phone[i], fade, gate, cfg);
  }

  lemma SampleScales(local: real, phone: real, fade: real, gate: real, cfg: Config)
    requires cfg.curve.Ideal() && 0.0 <= gate <= 1.0 && Uncut(MixSample(local, phone, fade, 1.0, cfg))
    ensures Scaled(MixSample(local, phone, fade, gate, cfg), MixSample(local, phone, fade, 1.0, cfg),
                   cfg.curve.gate(gate))
  {
    var gains := GainPair(cfg.curve.local(fade), cfg.curve.phone(fade));
    var open := Blend(local, phone, gains, 1.0, cfg);
    BlendScales(local, phone, gains, cfg.curve.gate(gate), cfg);
    LimitScales(open, cfg.curve.gate(gate));
  }

  lemma BlendScales(local: real, phone: real, gains: GainPair, opening: real, cfg: Config)
    ensures Blend(local, phone, gains, opening, cfg) == Blend(local, phone, gains, 1.0, cfg) * opening
  {
  }

  lemma LimitScales(x: real, part: real)
    requires Uncut(Limit(x)) && 0.0 <= part <= 1.0
    ensures Limit(x * part) == Limit(x) * part
  {
    Shrinks(x, part);
  }

  lemma Shrinks(x: real, part: real)
    requires Uncut(x) && 0.0 <= part <= 1.0
    ensures Uncut(x * part)
  {
    if x >= 0.0 {
      ScaledDown(x, part);
    } else {
      ScaledDown(-x, part);
      assert (-x) * part == -(x * part);
    }
  }

  /** The last sample of a frame is heard under the crossfade that the next frame starts
      from. */
  lemma LastSampleMeetsNextFrame(m: Control, x: Samples, cfg: Config, last: nat)
    requires m.gate.WellFormed() && Arrived(m.gate, 1.0, last) && cfg.curve.Ideal() && last + 1 == FRAME_SAMPLES
    ensures CutTo(Mix(m, x, Silence(), cfg)[last],
                  x[last] * cfg.localGain * cfg.curve.local(AfterMix(m).fade.position))
  {
    ArrivedAt(m.gate, 1.0, last);
    LocalGain(x[last], AdvanceN(m.fade, FRAME_SAMPLES).position, cfg);
  }

  lemma LocalGain(x: real, fade: real, cfg: Config)
    requires cfg.curve.Ideal()
    ensures CutTo(MixSample(x, 0.0, fade, 1.0, cfg), x * cfg.localGain * cfg.curve.local(fade))
  {
    assert 0.0 * cfg.curve.phone(fade) * cfg.phoneGain == 0.0;
    assert x * cfg.curve.local(fade) * cfg.localGain == x * cfg.localGain * cfg.curve.local(fade);
  }

  // ---------------------------------------------------------------- whole runs

  /** Both ramps, n frames after they were aimed. */
  predicate RampsWithin(c: Control, n: nat, cfg: Config) {
    c.fade.remaining <= Max(0, cfg.FadeSamples() - 960 * n) && c.gate.remaining <= Max(0, cfg.FadeSamples() - 960 * n)
  }

  function Max(a: int, b: int): int {
    if a < b then b else a
  }

  /** In the resting state of a mode, with n frames mixed since the mode was selected. */
  ghost predicate InMode(c: Control, mode: RoutingMode, n: nat, cfg: Config) {
    && Settled(c, cfg) && c.pending == [] && c.machine == Machine(RestingState(mode), mode)
    && RampsWithin(c, n, cfg)
  }

  lemma ModeSelected(c: Control, mode: RoutingMode, src: Sources, cfg: Config)
    requires Settled(c, cfg) && Calm(src)
    ensures InMode(Tick(Issue(c, Command.SetMode(mode)), src, cfg), mode, 1, cfg)
  {
    var c1 := Issue(c, Command.SetMode(mode));
    var d := Decided(c1, cfg);
    TickKeeps(c1, src, cfg);
    DecidedKeeps(c1, cfg);
    ModeDecided(c, mode, cfg);
    SameControl(d, src, src, cfg);
    MixKeeps(d, cfg);
    LandsExactly(d.gate, FRAME_SAMPLES);
  }

  lemma ModeDecided(c: Control, mode: RoutingMode, cfg: Config)
    requires |c.pending| <= EVENT_SLOTS
    ensures Decided(Issue(c, Command.SetMode(mode)), cfg).machine == Machine(RestingState(mode), mode)
  {
    var pending := Issue(c, Command.SetMode(mode)).pending;
    var front := pending[..|pending| - 1];
    assert pending == front + [ModeEvent(mode)];
    ApplyAllLast(c.(pending := []), front, ModeEvent(mode), cfg);
    ApplyEventIs(ApplyAll(c.(pending := []), front, cfg), Machine(RestingState(mode), mode), ModeEvent(mode), cfg);
  }

  lemma StaysInMode(c: Control, mode: RoutingMode, n: nat, src: Sources, cfg: Config)
    requires InMode(c, mode, n, cfg) && Calm(src)
    ensures InMode(Tick(c, src, cfg), mode, n + 1, cfg)
  {
    TickKeeps(c, src, cfg);
    assert Decided(c, cfg) == c;
    SameControl(c, src, src, cfg);
    MixKeeps(c, cfg);
    LandsExactly(c.gate, FRAME_SAMPLES);
  }

  lemma {:induction false} FramesInMode(c: Control, mode: RoutingMode, n: nat, feed: seq<Sources>, cfg: Config)
    requires InMode(c, mode, n, cfg) && forall k | 0 <= k < |feed| :: Calm(feed[k])
    ensures InMode(AfterTicks(c, feed, cfg), mode, n + |feed|, cfg)
  {
    if feed != [] {
      var front := feed[..|feed| - 1];
      FramesInMode(c, mode, n, front, cfg);
      StaysInMode(AfterTicks(c, front, cfg), mode, n + |front|, feed[|feed| - 1], cfg);
    }
  }

  /** The source that a mode is for: none when muted. */
  ghost predicate Heard(out: Samples, src: Sources, mode: RoutingMode, cfg: Config, i: nat)
    requires i < FRAME_SAMPLES
  {
    match mode
    case AutoMode => src.local.Delivering? ==> HeardAs(out, i, src.local.samples, cfg.localGain)
    case LocalOnlyMode => src.local.Delivering? ==> HeardAs(out, i, src.local.samples, cfg.localGain)
    case PhoneOnlyMode => src.phone.Delivering? ==> HeardAs(out, i, src.phone.samples, cfg.phoneGain)
    case MuteMode => out[i] == 0.0
  }

  /** After any run whatever, once a mode is selected and its frames cover the crossfade, what
      is heard is that mode's source alone, sample by sample, and nothing when muted. */
  lemma ModeIsHeard(calls: seq<Call>, mode: RoutingMode, last: Sources, feed: seq<Sources>,
                    src: Sources, cfg: Config, i: nat)
    requires cfg.curve.Ideal() && i < FRAME_SAMPLES
    requires Calm(last) && Calm(src) && forall k | 0 <= k < |feed| :: Calm(feed[k])
    requires (|feed| + 1) * 960 >= 48 * cfg.crossfadeMs
    ensures var selected := Tick(Issue(AfterCalls(calls, cfg), Command.SetMode(mode)), last, cfg);
      Heard(Output(AfterTicks(selected, feed, cfg), src, cfg), src, mode, cfg, i)
  {
    EveryRunSettles(calls, cfg);
    var selected := Tick(Issue(AfterCalls(calls, cfg), Command.SetMode(mode)), last, cfg);
    ModeSelected(AfterCalls(calls, cfg), mode, last, cfg);
    FramesInMode(selected, mode, 1, feed, cfg);
    RestIsHeard(AfterTicks(selected, feed, cfg), mode, src, cfg, i);
  }

  lemma RestIsHeard(c: Control, mode: RoutingMode, src: Sources, cfg: Config, i: nat)
    requires Settled(c, cfg) && c.pending == [] && c.machine == Machine(RestingState(mode), mode)
    requires c.fade.remaining == 0 && c.gate.remaining == 0 && Calm(src) && cfg.curve.Ideal() && i < FRAME_SAMPLES
    ensures Heard(Output(c, src, cfg), src, mode, cfg, i)
  {
    assert Decided(c, cfg) == c;
    SameControl(c, src, src, cfg);
    match mode {
      case MuteMode => ClosedGateIsSilent(c, src, cfg);
      case PhoneOnlyMode => if src.phone.Delivering? { PhoneIsHeard(c, src, cfg, i); }
      case _ => if src.local.Delivering? { LocalIsHeard(c, src, cfg, i); }
    }
  }

  lemma StartInMode(feed: seq<Sources>, cfg: Config)
    requires forall k | 0 <= k < |feed| :: Calm(feed[k])
    ensures var c := AfterTicks(START, feed, cfg);
      && Settled(c, cfg) && c.pending == [] && c.machine == INITIAL
      && c.fade.remaining == 0 && c.gate.remaining == 0
  {
    EveryRunSettles([], cfg);
    FramesInMode(START, AutoMode, cfg.FadeSamples(), feed, cfg);
  }

  /** From the start, for as long as nothing is called and no source fails, the local
      microphone is heard. */
  lemma LocalIsHeardFromTheStart(feed: seq<Sources>, src: Sources, cfg: Config, i: nat)
    requires cfg.curve.Ideal() && i < FRAME_SAMPLES && Calm(src) && forall k | 0 <= k < |feed| :: Calm(feed[k])
    ensures Heard(Output(AfterTicks(START, feed, cfg), src, cfg), src, AutoMode, cfg, i)
  {
    StartInMode(feed, cfg);
    RestIsHeard(AfterTicks(START, feed, cfg), AutoMode, src, cfg, i);
  }
}
