/** What the audio router promises over whole runs: invariants after every call, bounded
    failback, and that a faded-out phone cannot be heard. */
module RouterRuns {
  import opened Basics
  import opened Crossfading
  import opened SourceStates
  import opened RouterModel

  // ---------------------------------------------------------------- invariants

  /** Both ramps are sound and aimed where the state wants them. */
  ghost predicate Aimed(c: Control, cfg: Config) {
    && c.fade.WellFormed() && c.fade.Paced(cfg.FadeSamples())
    && c.gate.WellFormed() && c.gate.Paced(cfg.FadeSamples())
    && (!c.State().ErrorRecovery? ==> c.fade.target == FadeTarget(c.State()))
    && c.gate.target == GateTarget(c.State())
    && ModeAgrees(c.machine)
    && c.armStarted <= c.frame && c.lastHeartbeat <= c.frame
  }

  /** Between calls, `c.frame - 1` is the frame the last tick produced. */
  ghost predicate Settled(c: Control, cfg: Config) {
    && Aimed(c, cfg)
    && |c.pending| <= EVENT_SLOTS
    && (c.State().PhoneActive? ==> c.frame - 1 - c.lastHeartbeat <= cfg.LostFrames())
    && (c.State().PhoneArming? ==> c.armStarted < c.frame && c.frame - 1 - c.armStarted <= cfg.ArmFrames())
    && (c.State().ReturningToLocal? ==> c.fade.Active())
  }

  lemma ApplyKeepsAim(c: Control, e: Event, cfg: Config)
    requires Aimed(c, cfg)
    ensures Aimed(ApplyEvent(c, e, cfg), cfg)
    ensures ApplyEvent(c, e, cfg).frame == c.frame
    ensures ApplyEvent(c, e, cfg).lastHeartbeat == c.lastHeartbeat
    ensures ApplyEvent(c, e, cfg).pending == c.pending
  {
    StepKeepsMode(c.machine, e);
    var m := Step(c.machine, e);
    RetargetKeeps(c.gate, GateTarget(m.state), cfg.crossfadeMs);
    RetargetKeeps(c.fade, FadeTarget(m.state), cfg.crossfadeMs);
  }

  lemma {:induction false} ApplyAllKeepsAim(c: Control, events: seq<Event>, cfg: Config)
    requires Aimed(c, cfg)
    ensures Aimed(ApplyAll(c, events, cfg), cfg)
    ensures ApplyAll(c, events, cfg).frame == c.frame
    ensures ApplyAll(c, events, cfg).lastHeartbeat == c.lastHeartbeat
    ensures ApplyAll(c, events, cfg).pending == c.pending
    decreases |events|
  {
    if events != [] {
      ApplyKeepsAim(c, events[0], cfg);
      ApplyAllKeepsAim(ApplyEvent(c, events[0], cfg), events[1..], cfg);
    }
  }

  /** After the timers: no expired state survives, and recovery is only ever entered here
      by an arming timeout. */
  ghost predicate TimersHonoured(c: Control, cfg: Config) {
    !PhoneExpired(c, cfg) && !ArmExpired(c, cfg)
  }

  lemma DecidedKeeps(c: Control, cfg: Config)
    requires Aimed(c, cfg)
    ensures var d := Decided(c, cfg);
      && Aimed(d, cfg) && TimersHonoured(d, cfg)
      && d.frame == c.frame && d.lastHeartbeat == c.lastHeartbeat && d.pending == []
      && (d.State().ErrorRecovery? <==> ArmExpired(Drain(c, cfg), cfg))
  {
    ApplyAllKeepsAim(c.(pending := []), c.pending, cfg);
    TimersKeep(Drain(c, cfg), cfg);
  }

  lemma TimersKeep(c: Control, cfg: Config)
    requires Aimed(c, cfg)
    ensures var d := Timers(c, cfg);
      && Aimed(d, cfg) && TimersHonoured(d, cfg)
      && d.frame == c.frame && d.lastHeartbeat == c.lastHeartbeat && d.pending == c.pending
      && (d.State().ErrorRecovery? <==> ArmExpired(c, cfg))
  {
    ApplyKeepsAim(c, Recovered, cfg);
    ApplyKeepsAim(c, ArmTimeout, cfg);
    ApplyKeepsAim(c, PhoneLost, cfg);
  }

  /** Whether a source that the tick reads reports failure. */
  predicate SourceFailed(c: Control, src: Sources, cfg: Config) {
    || (ReadsLocal(c) && src.local.Failing?)
    || (ReadsPhone(c, src, cfg) && src.phone.Failing?)
  }

  lemma SourcesKeep(c: Control, src: Sources, cfg: Config)
    requires Aimed(c, cfg)
    ensures var d := AfterSources(c, src, cfg);
      && Aimed(d, cfg)
      && d.frame == c.frame && d.lastHeartbeat == c.lastHeartbeat && d.pending == c.pending
      && (if SourceFailed(c, src, cfg) then d.State().ErrorRecovery? else d == c)
  {
    ApplyKeepsAim(c, SourceFailure, cfg);
    ApplyKeepsAim(AfterLocal(c, src, cfg), SourceFailure, cfg);
  }

  /** A failure, of a source or of an answer to come, closes the gate and leaves the crossfade
      on its course, wherever it is. */
  lemma FailureKeepsFade(c: Control, src: Sources, cfg: Config)
    requires Aimed(c, cfg)
    ensures SourceFailed(c, src, cfg) ==>
      AfterSources(c, src, cfg).fade == c.fade && AfterSources(c, src, cfg).gate.target == 0.0
    ensures ArmExpired(c, cfg) ==> Timers(c, cfg).fade == c.fade && Timers(c, cfg).gate.target == 0.0
  {
    SourcesKeep(c, src, cfg);
    ApplyKeepsAim(c, ArmTimeout, cfg);
  }

  lemma MixKeeps(c: Control, cfg: Config)
    requires Aimed(c, cfg)
    ensures Aimed(AfterMix(c), cfg)
    ensures AfterMix(c).fade.remaining == if c.fade.remaining > FRAME_SAMPLES then c.fade.remaining - FRAME_SAMPLES else 0
    ensures AfterMix(c) == c.(fade := AfterMix(c).fade, gate := AfterMix(c).gate)
  {
    LandsExactly(c.fade, FRAME_SAMPLES);
    LandsExactly(c.gate, FRAME_SAMPLES);
    AdvanceNKeepsPace(c.fade, FRAME_SAMPLES, cfg.FadeSamples());
    AdvanceNKeepsPace(c.gate, FRAME_SAMPLES, cfg.FadeSamples());
  }

  lemma {:induction false} AdvanceNKeepsPace(r: Ramp, n: nat, full: nat)
    requires r.Paced(full)
    ensures AdvanceN(r, n).Paced(full)
  {
    if n > 0 {
      AdvanceNKeepsPace(r, n - 1, full);
    }
  }

  /** One tick: afterwards the phone is live only with a recent heartbeat, arming only
      within its timeout, returning only while the fade still runs; and error recovery is
      left in the tick after it was entered, so that it is seen exactly when this tick's
      arming timed out or a source it read failed. */
  lemma TickKeeps(c: Control, src: Sources, cfg: Config)
    requires Settled(c, cfg)
    ensures Settled(Tick(c, src, cfg), cfg)
    ensures Tick(c, src, cfg).frame == c.frame + 1
    ensures Tick(c, src, cfg).pending == []
    ensures Tick(c, src, cfg).lastHeartbeat == c.lastHeartbeat
    ensures Tick(c, src, cfg).State().ErrorRecovery? <==>
              ArmExpired(Drain(c, cfg), cfg) || SourceFailed(Decided(c, cfg), src, cfg)
  {
    DecidedKeeps(c, cfg);
    SourcesKeep(Decided(c, cfg), src, cfg);
    MixKeeps(AfterSources(Decided(c, cfg), src, cfg), cfg);
    var m := Mixed(c, src, cfg);
    ApplyKeepsAim(m.(frame := m.frame + 1), FadeComplete, cfg);
  }

  // ---------------------------------------------------------------- runs

  datatype Call = Ticked(src: Sources) | Commanded(cmd: Command)

  function After1(c: Control, call: Call, cfg: Config): Control {
    match call
    case Ticked(src) => Tick(c, src, cfg)
    case Commanded(cmd) => Issue(c, cmd)
  }

  function AfterFrom(c: Control, calls: seq<Call>, cfg: Config): Control {
    if calls == [] then c
    else After1(AfterFrom(c, calls[..|calls| - 1], cfg), calls[|calls| - 1], cfg)
  }

  function AfterCalls(calls: seq<Call>, cfg: Config): Control {
    AfterFrom(START, calls, cfg)
  }

  lemma {:induction false} RunSettles(c: Control, calls: seq<Call>, cfg: Config)
    requires Settled(c, cfg)
    ensures Settled(AfterFrom(c, calls, cfg), cfg)
  {
    if calls != [] {
      var front := calls[..|calls| - 1];
      RunSettles(c, front, cfg);
      match calls[|calls| - 1] {
        case Ticked(src) => TickKeeps(AfterFrom(c, front, cfg), src, cfg);
        case Commanded(_) =>
      }
    }
  }

  /** Every reachable state is settled, whatever was called in whatever order and however
      many events the queue had to drop. */
  lemma EveryRunSettles(calls: seq<Call>, cfg: Config)
    ensures Settled(AfterCalls(calls, cfg), cfg)
  {
    RunSettles(START, calls, cfg);
  }

  /** A time in milliseconds as whole frames of 20, one at least. */
  function WholeFrames(ms: nat): nat {
    if ms < 20 then 1 else ms / 20
  }

  // ---------------------------------------------------------------- bounded failback

  /** A tick with no pending events in which no source reports failure. */
  predicate Calm(src: Sources) {
    !src.local.Failing? && !src.phone.Failing?
  }

  /** Ticks needed to mix n samples. */
  function TicksFor(n: nat): (ticks: nat)
    ensures n >= 1 ==> ticks >= 1
  {
    if n == 0 then 0 else 1 + TicksFor(Unmixed(n))
  }

  /** What a frame leaves of n samples to mix. */
  function Unmixed(n: nat): (rest: nat)
    ensures n >= 1 ==> rest < n
  {
    if n > FRAME_SAMPLES then n - FRAME_SAMPLES else 0
  }

  /** That is the quotient by the 960 samples of a frame, rounded up. */
  lemma {:induction false} TicksForIsCeiling(n: nat)
    ensures TicksFor(n) * 960 >= n && (n >= 1 ==> (TicksFor(n) - 1) * 960 < n)
  {
    assert FRAME_SAMPLES == 960;
    if n >= 1 {
      TicksForIsCeiling(Unmixed(n));
    }
  }

  /** How many undisturbed ticks the router is from its resting state. */
  function Distance(c: Control, cfg: Config): int {
    match c.State()
    case ErrorRecovery => 1
    case PhoneArming => c.armStarted + cfg.ArmFrames() + 3 - c.frame
    case PhoneActive => c.lastHeartbeat + cfg.LostFrames() + 1 - c.frame + TicksFor(cfg.FadeSamples())
    case ReturningToLocal => TicksFor(c.fade.remaining)
    case _ => 0
  }

  function FailbackBound(cfg: Config): nat {
    var arming := cfg.ArmFrames() + 2;
    var active := cfg.LostFrames() + 1 + TicksFor(cfg.FadeSamples());
    if arming > active then arming else active
  }

  predicate Resting(c: Control) {
    c.State() == RestingState(c.machine.mode)
  }

  lemma {:induction false} TicksForFacts(n: nat, m: nat)
    requires n <= m
    ensures TicksFor(n) <= TicksFor(m)
    ensures n >= 1 ==> TicksFor(Unmixed(n)) == TicksFor(n) - 1
    decreases m
  {
    if n >= 1 {
      TicksForFacts(Unmixed(n), Unmixed(m));
    }
  }

  lemma DistanceBounds(c: Control, cfg: Config)
    requires Settled(c, cfg)
    ensures 0 <= Distance(c, cfg) <= FailbackBound(cfg)
    ensures Distance(c, cfg) == 0 <==> Resting(c)
  {
    TicksForFacts(c.fade.remaining, cfg.FadeSamples());
    TicksForFacts(cfg.FadeSamples(), cfg.FadeSamples());
  }

  /** With nothing queued and no failure, a tick is the timers, a frame of mixing and the
      closing of a finished fade. */
  lemma CalmTick(c: Control, src: Sources, cfg: Config)
    requires Settled(c, cfg) && c.pending == [] && Calm(src)
    ensures var m := AfterMix(Timers(c, cfg));
      Tick(c, src, cfg) == CloseFade(m.(frame := m.frame + 1), cfg)
    ensures Aimed(Timers(c, cfg), cfg)
  {
    assert Drain(c, cfg) == c;
    DecidedKeeps(c, cfg);
    SourcesKeep(Decided(c, cfg), src, cfg);
    assert AfterSources(Decided(c, cfg), src, cfg) == Decided(c, cfg);
  }

  /** Closing a finished fade rests; otherwise the fade has a frame less to go. */
  lemma MixApproaches(d: Control, cfg: Config)
    requires Aimed(d, cfg)
    ensures var m := AfterMix(d);
      var next := CloseFade(m.(frame := m.frame + 1), cfg);
      && next.machine.mode == d.machine.mode && next.frame == d.frame + 1
      && next.armStarted == d.armStarted && next.lastHeartbeat == d.lastHeartbeat
      && (if d.State().ReturningToLocal?
          then Distance(next, cfg) <= TicksFor(d.fade.remaining) - 1 || Distance(next, cfg) == 0
          else next.State() == d.State())
  {
    MixKeeps(d, cfg);
    TicksForFacts(d.fade.remaining, d.fade.remaining);
  }

  lemma TimersApproach(c: Control, cfg: Config)
    requires Settled(c, cfg)
    ensures var d := Timers(c, cfg);
      && d.machine.mode == c.machine.mode && d.frame == c.frame
      && d.armStarted == c.armStarted && d.lastHeartbeat == c.lastHeartbeat
      && d.State() == (if c.State().ErrorRecovery? then RestingState(c.machine.mode)
                       else if ArmExpired(c, cfg) then ErrorRecovery
                       else if PhoneExpired(c, cfg) then ReturningToLocal
                       else c.State())
      && (c.State().ReturningToLocal? ==> d == c)
  {
  }

  /** A calm tick brings the router at least one tick closer, until it rests. */
  lemma CalmTickApproaches(c: Control, src: Sources, cfg: Config)
    requires Settled(c, cfg) && c.pending == [] && Calm(src)
    ensures var next := Tick(c, src, cfg);
      && next.machine.mode == c.machine.mode
      && Distance(next, cfg) <= (if Distance(c, cfg) > 0 then Distance(c, cfg) - 1 else 0)
  {
    var d := Timers(c, cfg);
    CalmTick(c, src, cfg);
    TimersApproach(c, cfg);
    MixApproaches(d, cfg);
    TicksForFacts(d.fade.remaining, cfg.FadeSamples());
    var m := AfterMix(d);
    CloserBy(c, d, CloseFade(m.(frame := m.frame + 1), cfg), cfg);
  }

  /** The step itself: from `c` through the timers' `d` to `next`. */
  lemma CloserBy(c: Control, d: Control, next: Control, cfg: Config)
    requires Settled(c, cfg) && d == Timers(c, cfg) && Aimed(d, cfg)
    requires d.machine.mode == c.machine.mode && d.frame == c.frame
    requires d.armStarted == c.armStarted && d.lastHeartbeat == c.lastHeartbeat
    requires d.State() == (if c.State().ErrorRecovery? then RestingState(c.machine.mode)
                           else if ArmExpired(c, cfg) then ErrorRecovery
                           else if PhoneExpired(c, cfg) then ReturningToLocal
                           else c.State())
    requires c.State().ReturningToLocal? ==> d == c
    requires next.machine.mode == d.machine.mode && next.frame == d.frame + 1
    requires next.armStarted == d.armStarted && next.lastHeartbeat == d.lastHeartbeat
    requires if d.State().ReturningToLocal?
             then Distance(next, cfg) <= TicksFor(d.fade.remaining) - 1 || Distance(next, cfg) == 0
             else next.State() == d.State()
    requires TicksFor(d.fade.remaining) <= TicksFor(cfg.FadeSamples())
    ensures Distance(next, cfg) <= (if Distance(c, cfg) > 0 then Distance(c, cfg) - 1 else 0)
  {
  }

  function AfterTicks(c: Control, feed: seq<Sources>, cfg: Config): Control {
    if feed == [] then c
    else Tick(AfterTicks(c, feed[..|feed| - 1], cfg), feed[|feed| - 1], cfg)
  }

  lemma {:induction false} CalmTicksApproach(c: Control, feed: seq<Sources>, cfg: Config)
    requires Settled(c, cfg) && c.pending == []
    requires forall i | 0 <= i < |feed| :: Calm(feed[i])
    ensures var end := AfterTicks(c, feed, cfg);
      && Settled(end, cfg) && end.pending == [] && end.machine.mode == c.machine.mode
      && Distance(end, cfg) <= (if Distance(c, cfg) > |feed| then Distance(c, cfg) - |feed| else 0)
  {
    if feed != [] {
      var front := feed[..|feed| - 1];
      CalmTicksApproach(c, front, cfg);
      TickKeeps(AfterTicks(c, front, cfg), feed[|feed| - 1], cfg);
      CalmTickApproaches(AfterTicks(c, front, cfg), feed[|feed| - 1], cfg);
    }
  }

  /** The frames that arming may last and two more; and those that a live phone may be silent,
      one more, and those that the crossfade takes, 48 samples a millisecond. */
  predicate LongEnough(n: nat, cfg: Config) {
    && n >= WholeFrames(cfg.armTimeoutMs) + 2
    && n >= WholeFrames(cfg.phoneLostTimeoutMs) + 2
    && (n - WholeFrames(cfg.phoneLostTimeoutMs) - 1) * 960 >= 48 * cfg.crossfadeMs
  }

  lemma LongEnoughIs(n: nat, cfg: Config)
    ensures LongEnough(n, cfg) <==> n >= FailbackBound(cfg)
  {
    FullIs(cfg.crossfadeMs);
    TicksForIsCeiling(cfg.FadeSamples());
    assert cfg.ArmFrames() == WholeFrames(cfg.armTimeoutMs) && cfg.LostFrames() == WholeFrames(cfg.phoneLostTimeoutMs);
  }

  /** Bounded failback: after any run whatever, once control calls and heartbeats stop, one
      tick drains what is queued, and that many ticks later the router is in the resting
      state of its mode (the local microphone in automatic mode) and stays there. */
  lemma BoundedFailback(calls: seq<Call>, last: Sources, feed: seq<Sources>, cfg: Config)
    requires LongEnough(|feed|, cfg)
    requires forall i | 0 <= i < |feed| :: Calm(feed[i])
    ensures var drained := Tick(AfterCalls(calls, cfg), last, cfg);
      var end := AfterTicks(drained, feed, cfg);
      && end.machine.mode == drained.machine.mode
      && end.State() == RestingState(drained.machine.mode)
  {
    LongEnoughIs(|feed|, cfg);
    EveryRunSettles(calls, cfg);
    TickKeeps(AfterCalls(calls, cfg), last, cfg);
    var drained := Tick(AfterCalls(calls, cfg), last, cfg);
    CalmTicksApproach(drained, feed, cfg);
    DistanceBounds(drained, cfg);
    DistanceBounds(AfterTicks(drained, feed, cfg), cfg);
  }

  // ---------------------------------------------------------------- what can be heard

  /** The two feeds agree on everything except what the phone's samples are. */
  predicate SameButPhone(a: Sources, b: Sources) {
    && a.local == b.local
    && (a.phone.Absent? <==> b.phone.Absent?) && (a.phone.Failing? <==> b.phone.Failing?)
  }

  /** At mixing time the crossfade has arrived on the local side. */
  predicate FadedOut(c: Control, src: Sources, cfg: Config) {
    var m := AfterSources(Decided(c, cfg), src, cfg);
    m.fade.position == 0.0 && m.fade.remaining == 0
  }

  lemma {:induction false} IdleRampStays(r: Ramp, n: nat)
    requires r.remaining == 0
    ensures AdvanceN(r, n) == r
  {
    if n > 0 {
      IdleRampStays(r, n - 1);
    }
  }

  /** The phone's samples never influence a decision. */
  lemma PhoneDecidesNothing(c: Control, a: Sources, b: Sources, cfg: Config)
    requires SameButPhone(a, b)
    ensures AfterSources(Decided(c, cfg), a, cfg) == AfterSources(Decided(c, cfg), b, cfg)
    ensures LocalFrame(Decided(c, cfg), a) == LocalFrame(Decided(c, cfg), b)
    ensures Tick(c, a, cfg) == Tick(c, b, cfg)
  {
  }

  lemma ZeroGainSample(local: real, p: real, q: real, gate: real, cfg: Config)
    requires cfg.curve.Ideal()
    ensures MixSample(local, p, 0.0, gate, cfg) == MixSample(local, q, 0.0, gate, cfg)
  {
    SilentPhone(local, p, q, cfg.curve.gate(gate), cfg);
  }

  lemma SilentPhone(local: real, p: real, q: real, opening: real, cfg: Config)
    ensures Blend(local, p, GainPair(1.0, 0.0), opening, cfg) == Blend(local, q, GainPair(1.0, 0.0), opening, cfg)
  {
    var l := local * 1.0 * cfg.localGain;
    assert l + p * 0.0 * cfg.phoneGain == l;
    assert l + q * 0.0 * cfg.phoneGain == l;
  }

  /** With the crossfade at rest on the local side the mix does not depend on the phone. */
  lemma MixIgnoresPhone(c: Control, local: Samples, p: Samples, q: Samples, cfg: Config)
    requires cfg.curve.Ideal() && c.fade.position == 0.0 && c.fade.remaining == 0
    ensures Mix(c, local, p, cfg) == Mix(c, local, q, cfg)
  {
    forall i | 0 <= i < FRAME_SAMPLES
      ensures Mix(c, local, p, cfg)[i] == Mix(c, local, q, cfg)[i]
    {
      IdleRampStays(c.fade, i + 1);
      ZeroGainSample(local[i], p[i], q[i], AdvanceN(c.gate, i + 1).position, cfg);
    }
  }

  lemma PhoneCannotBeHeard(c: Control, a: Sources, b: Sources, cfg: Config)
    requires cfg.curve.Ideal() && SameButPhone(a, b) && FadedOut(c, a, cfg)
    ensures Output(c, a, cfg) == Output(c, b, cfg)
  {
    var d := Decided(c, cfg);
    PhoneDecidesNothing(c, a, b, cfg);
    MixIgnoresPhone(AfterSources(d, a, cfg), LocalFrame(d, a), PhoneFrame(d, a, cfg), PhoneFrame(d, b, cfg), cfg);
  }

  /** The tick mixes in a state in which the phone is not meant to be heard. */
  ghost predicate NotAudible(c: Control, src: Sources, cfg: Config) {
    var m := AfterSources(Decided(c, cfg), src, cfg);
    !PhoneAudible(m.State()) && !m.State().ErrorRecovery?
  }

  /** Decisions may retarget the crossfade but never move it. */
  ghost predicate Reaimed(f: Ramp, g: Ramp, cfg: Config) {
    g == f || g == Retarget(f, 0.0, cfg.crossfadeMs) || g == Retarget(f, 1.0, cfg.crossfadeMs)
  }

  lemma ApplyReaims(f: Ramp, c: Control, e: Event, cfg: Config)
    requires Reaimed(f, c.fade, cfg)
    ensures Reaimed(f, ApplyEvent(c, e, cfg).fade, cfg)
  {
  }

  lemma {:induction false} ApplyAllReaims(f: Ramp, c: Control, events: seq<Event>, cfg: Config)
    requires Reaimed(f, c.fade, cfg)
    ensures Reaimed(f, ApplyAll(c, events, cfg).fade, cfg)
    decreases |events|
  {
    if events != [] {
      ApplyReaims(f, c, events[0], cfg);
      ApplyAllReaims(f, ApplyEvent(c, events[0], cfg), events[1..], cfg);
    }
  }

  lemma DecisionsReaim(c: Control, src: Sources, cfg: Config)
    ensures Reaimed(c.fade, AfterSources(Decided(c, cfg), src, cfg).fade, cfg)
  {
    ApplyAllReaims(c.fade, c.(pending := []), c.pending, cfg);
    var drained := Drain(c, cfg);
    ApplyReaims(c.fade, drained, Recovered, cfg);
    ApplyReaims(c.fade, drained, ArmTimeout, cfg);
    ApplyReaims(c.fade, drained, PhoneLost, cfg);
    ApplyReaims(c.fade, Decided(c, cfg), SourceFailure, cfg);
    ApplyReaims(c.fade, AfterLocal(Decided(c, cfg), src, cfg), SourceFailure, cfg);
  }

  /** Aiming again at the same target never takes longer. */
  lemma RetargetSame(r: Ramp, ms: nat)
    requires r.WellFormed() && r.Paced(FullSamples(ms))
    ensures Retarget(r, r.target, ms).remaining <= r.remaining
  {
    if r.remaining > 0 {
      var distance := Abs(r.target - r.position);
      var n, full := r.remaining as real, FullSamples(ms) as real;
      SameSign(r.step, r.remaining);
      assert distance == Abs(r.step) * n;
      ScaleDown(Abs(r.step) * full, n);
      assert full * distance == (Abs(r.step) * full) * n;
      assert full * distance <= n;
    }
  }

  lemma SameSign(x: real, n: nat)
    ensures Abs(x * n as real) == Abs(x) * n as real
  {
  }

  lemma ScaleDown(x: real, n: real)
    requires x <= 1.0 && n >= 0.0
    ensures x * n <= n
  {
    assert (1.0 - x) * n >= 0.0;
  }

  /** A tick that mixes in such a state carries the crossfade a frame towards the local
      side, from where it was or, on entering the state, from at most a full traversal. */
  lemma QuietTickFades(c: Control, src: Sources, cfg: Config)
    requires Settled(c, cfg) && NotAudible(c, src, cfg)
    ensures var m := AfterSources(Decided(c, cfg), src, cfg);
      && m.fade.WellFormed() && m.fade.target == 0.0
      && m.fade.remaining <= cfg.FadeSamples()
      && (c.fade.target == 0.0 ==> m.fade.remaining <= c.fade.remaining)
      && Tick(c, src, cfg).fade.target == 0.0
      && Tick(c, src, cfg).fade.remaining <= Unmixed(m.fade.remaining)
  {
    DecidedKeeps(c, cfg);
    SourcesKeep(Decided(c, cfg), src, cfg);
    DecisionsReaim(c, src, cfg);
    var m := AfterSources(Decided(c, cfg), src, cfg);
    if c.fade.target == 0.0 {
      RetargetSame(c.fade, cfg.crossfadeMs);
      RetargetKeeps(c.fade, 1.0, cfg.crossfadeMs);
    }
    MixKeeps(m, cfg);
  }

  function TickCount(calls: seq<Call>): nat {
    if calls == [] then 0
    else TickCount(calls[..|calls| - 1]) + (if calls[|calls| - 1].Ticked? then 1 else 0)
  }

  ghost predicate QuietRun(c: Control, calls: seq<Call>, cfg: Config) {
    forall i | 0 <= i < |calls| && calls[i].Ticked? ::
      NotAudible(AfterFrom(c, calls[..i], cfg), calls[i].src, cfg)
  }

  /** What n frames leave of a full traversal. */
  function Left(full: nat, n: nat): nat {
    if n == 0 then full else Unmixed(Left(full, n - 1))
  }

  lemma {:induction false} NothingLeft(full: nat, n: nat)
    ensures TicksFor(Left(full, n)) == if TicksFor(full) > n then TicksFor(full) - n else 0
    ensures n >= TicksFor(full) ==> Left(full, n) == 0
  {
    if n > 0 {
      NothingLeft(full, n - 1);
      TicksForFacts(Left(full, n - 1), Left(full, n - 1));
    }
  }

  lemma {:induction false} QuietRunFades(c: Control, calls: seq<Call>, cfg: Config)
    requires Settled(c, cfg) && QuietRun(c, calls, cfg)
    ensures FadedBy(AfterFrom(c, calls, cfg), TickCount(calls), cfg)
  {
    if calls != [] {
      var front, last := calls[..|calls| - 1], calls[|calls| - 1];
      QuietPrefix(c, calls, cfg);
      QuietRunFades(c, front, cfg);
      if last.Ticked? {
        QuietStepFrom(c, front, last.src, cfg);
      }
    }
  }

  ghost predicate FadedBy(c: Control, n: nat, cfg: Config) {
    n >= 1 ==> c.fade.target == 0.0 && c.fade.remaining <= Left(cfg.FadeSamples(), n)
  }

  lemma QuietStepFrom(c: Control, front: seq<Call>, src: Sources, cfg: Config)
    requires Settled(c, cfg) && NotAudible(AfterFrom(c, front, cfg), src, cfg)
    requires FadedBy(AfterFrom(c, front, cfg), TickCount(front), cfg)
    ensures FadedBy(Tick(AfterFrom(c, front, cfg), src, cfg), TickCount(front) + 1, cfg)
  {
    RunSettles(c, front, cfg);
    QuietStep(AfterFrom(c, front, cfg), src, TickCount(front), cfg);
  }

  lemma QuietPrefix(c: Control, calls: seq<Call>, cfg: Config)
    requires calls != [] && QuietRun(c, calls, cfg)
    ensures var front, last := calls[..|calls| - 1], calls[|calls| - 1];
      QuietRun(c, front, cfg) && (last.Ticked? ==> NotAudible(AfterFrom(c, front, cfg), last.src, cfg))
  {
    var front := calls[..|calls| - 1];
    forall i | 0 <= i < |front| && front[i].Ticked?
      ensures NotAudible(AfterFrom(c, front[..i], cfg), front[i].src, cfg)
    {
      assert front[..i] == calls[..i];
    }
  }

  lemma UnmixedMonotone(n: nat, m: nat)
    requires n <= m
    ensures Unmixed(n) <= Unmixed(m)
  {
  }

  /** One more quiet tick after n of them. */
  lemma QuietStep(c: Control, src: Sources, n: nat, cfg: Config)
    requires Settled(c, cfg) && NotAudible(c, src, cfg)
    requires FadedBy(c, n, cfg)
    ensures FadedBy(Tick(c, src, cfg), n + 1, cfg)
  {
    QuietTickFades(c, src, cfg);
    UnmixedMonotone(AfterSources(Decided(c, cfg), src, cfg).fade.remaining, Left(cfg.FadeSamples(), n));
  }

  ghost predicate SameCallsButPhone(a: seq<Call>, b: seq<Call>) {
    && |a| == |b|
    && forall i | 0 <= i < |a| ::
         a[i] == b[i] || (a[i].Ticked? && b[i].Ticked? && SameButPhone(a[i].src, b[i].src))
  }

  lemma {:induction false} RunsAgree(c: Control, a: seq<Call>, b: seq<Call>, cfg: Config)
    requires SameCallsButPhone(a, b)
    ensures AfterFrom(c, a, cfg) == AfterFrom(c, b, cfg)
  {
    if a != [] {
      var last := |a| - 1;
      RunsAgree(c, a[..last], b[..last], cfg);
      if a[last] != b[last] {
        PhoneDecidesNothing(AfterFrom(c, a[..last], cfg), a[last].src, b[last].src, cfg);
      }
    }
  }

  /** Two runs that differ only in the phone's samples: once states in which the phone is
      not wanted have lasted for a full crossfade, both produce the same frame. */
  lemma OutlastedFadeIsInaudible(
    before: seq<Call>, before': seq<Call>, quiet: seq<Call>, quiet': seq<Call>,
    src: Sources, src': Sources, cfg: Config)
    requires cfg.curve.Ideal()
    requires SameCallsButPhone(before, before') && SameCallsButPhone(quiet, quiet') && SameButPhone(src, src')
    requires QuietRun(AfterCalls(before, cfg), quiet, cfg)
    requires TickCount(quiet) >= TicksFor(cfg.FadeSamples())
    requires NotAudible(AfterFrom(AfterCalls(before, cfg), quiet, cfg), src, cfg)
    ensures var end := AfterFrom(AfterCalls(before, cfg), quiet, cfg);
      var end' := AfterFrom(AfterCalls(before', cfg), quiet', cfg);
      end == end' && Output(end, src, cfg) == Output(end', src', cfg)
  {
    var c := AfterCalls(before, cfg);
    var end := AfterFrom(c, quiet, cfg);
    EveryRunSettles(before, cfg);
    RunSettles(c, quiet, cfg);
    RunsAgree(START, before, before', cfg);
    RunsAgree(c, quiet, quiet', cfg);
    QuietRunFades(c, quiet, cfg);
    NothingLeft(cfg.FadeSamples(), TickCount(quiet));
    QuietTickFades(end, src, cfg);
    PhoneCannotBeHeard(end, src, src', cfg);
  }

  /** With the gate closed and still, the frame is silence whatever the sources deliver. */
  lemma ClosedGateIsSilent(c: Control, src: Sources, cfg: Config)
    requires cfg.curve.Ideal()
    requires var m := AfterSources(Decided(c, cfg), src, cfg);
      m.gate.position == 0.0 && m.gate.remaining == 0
    ensures Output(c, src, cfg) == Silence()
  {
    var d := Decided(c, cfg);
    MixIsSilent(AfterSources(d, src, cfg), LocalFrame(d, src), PhoneFrame(d, src, cfg), cfg);
  }

  lemma MixIsSilent(c: Control, local: Samples, phone: Samples, cfg: Config)
    requires cfg.curve.Ideal() && c.gate.position == 0.0 && c.gate.remaining == 0
    ensures Mix(c, local, phone, cfg) == Silence()
  {
    forall i | 0 <= i < FRAME_SAMPLES
      ensures Mix(c, local, phone, cfg)[i] == 0.0
    {
      IdleRampStays(c.gate, i + 1);
      ZeroGateSample(local[i], phone[i], AdvanceN(c.fade, i + 1).position, cfg);
    }
  }

  lemma ZeroGateSample(local: real, phone: real, position: real, cfg: Config)
    requires cfg.curve.Ideal()
    ensures MixSample(local, phone, position, 0.0, cfg) == 0.0
  {
    var gains := GainPair(cfg.curve.local(position), cfg.curve.phone(position));
    ClosedBlend(local, phone, gains, cfg);
  }

  lemma ClosedBlend(local: real, phone: real, gains: GainPair, cfg: Config)
    ensures Blend(local, phone, gains, 0.0, cfg) == 0.0
  {
  }

  // ---------------------------------------------------------------- gains and samples

  lemma {:induction false} ApplyAllKeepsGate(c: Control, events: seq<Event>, cfg: Config)
    ensures ApplyAll(c, events, cfg).gate.position == c.gate.position
    decreases |events|
  {
    if events != [] {
      ApplyAllKeepsGate(ApplyEvent(c, events[0], cfg), events[1..], cfg);
    }
  }

  lemma DecisionsKeepGate(c: Control, cfg: Config)
    ensures Decided(c, cfg).gate.position == c.gate.position
  {
    ApplyAllKeepsGate(c.(pending := []), c.pending, cfg);
  }

  /** Undisturbed, a paced ramp keeps its pace at every sample. */
  lemma PacedSteps(r: Ramp, n: nat, ms: nat)
    requires r.WellFormed() && r.Paced(FullSamples(ms))
    ensures Gentle(AdvanceN(r, n), AdvanceN(r, n + 1), ms)
  {
    LandsExactly(r, n);
    AdvanceNKeepsPace(r, n, FullSamples(ms));
    CallKeeps(AdvanceN(r, n), Next, ms);
    MovedInMillis(AdvanceN(r, n), AdvanceN(r, n + 1), ms);
  }

  /** Whatever is decided, the crossfade and the output gate enter the frame where the
      previous frame left them, and at each of the frame's samples each moves by at most one
      part in the 48 samples of each millisecond of the crossfade. */
  lemma GainsNeverJump(c: Control, src: Sources, cfg: Config, i: nat)
    requires Settled(c, cfg) && i < FRAME_SAMPLES
    ensures var m := AfterSources(Decided(c, cfg), src, cfg);
      && m.fade.position == c.fade.position && m.gate.position == c.gate.position
      && Gentle(AdvanceN(m.fade, i), AdvanceN(m.fade, i + 1), cfg.crossfadeMs)
      && Gentle(AdvanceN(m.gate, i), AdvanceN(m.gate, i + 1), cfg.crossfadeMs)
      && Tick(c, src, cfg).fade.position == AdvanceN(m.fade, FRAME_SAMPLES).position
      && Tick(c, src, cfg).gate.position == AdvanceN(m.gate, FRAME_SAMPLES).position
  {
    FrameEntered(c, src, cfg);
    var m := AfterSources(Decided(c, cfg), src, cfg);
    PacedSteps(m.fade, i, cfg.crossfadeMs);
    PacedSteps(m.gate, i, cfg.crossfadeMs);
    FrameLeft(c, src, cfg);
  }

  /** Decisions and sources may re-aim the ramps but never move them. */
  lemma FrameEntered(c: Control, src: Sources, cfg: Config)
    requires Settled(c, cfg)
    ensures var m := AfterSources(Decided(c, cfg), src, cfg);
      Aimed(m, cfg) && m.fade.position == c.fade.position && m.gate.position == c.gate.position
  {
    DecidedKeeps(c, cfg);
    SourcesKeep(Decided(c, cfg), src, cfg);
    DecisionsReaim(c, src, cfg);
    DecisionsKeepGate(c, cfg);
  }

  lemma FrameLeft(c: Control, src: Sources, cfg: Config)
    ensures var m := AfterSources(Decided(c, cfg), src, cfg);
      && Tick(c, src, cfg).fade.position == AdvanceN(m.fade, FRAME_SAMPLES).position
      && Tick(c, src, cfg).gate.position == AdvanceN(m.gate, FRAME_SAMPLES).position
  {
  }
}
