/** How long a press and a release last at the router, to the frame and in milliseconds
    (windows/audio-service/src/router.cpp). */
module RouterTimes {
  import opened Basics
  import opened Crossfading
  import opened SourceStates
  import opened RouterModel
  import opened RouterRuns

  /** A frame in which no source fails: decisions, mixing, and the closing of a finished fade. */
  lemma CalmFrame(c: Control, src: Sources, cfg: Config)
    requires Settled(c, cfg) && Calm(src)
    ensures var m := AfterMix(Decided(c, cfg)); Tick(c, src, cfg) == CloseFade(m.(frame := m.frame + 1), cfg)
    ensures Aimed(Decided(c, cfg), cfg)
  {
    DecidedKeeps(c, cfg);
    SourcesKeep(Decided(c, cfg), src, cfg);
  }

  lemma DecidedAfter(c: Control, e: Event, drained: Control, cfg: Config)
    requires c.pending == [e] && drained == ApplyEvent(c.(pending := []), e, cfg)
    ensures Decided(c, cfg) == Timers(drained, cfg)
  {
    assert [] + [e] == [e];
    ApplyAllLast(c.(pending := []), [], e, cfg);
  }

  // ---------------------------------------------------------------- a release

  /** k frames after a release that had r samples of crossfade to play. */
  ghost predicate Returning(d: Control, r: nat, k: nat, cfg: Config) {
    && Settled(d, cfg) && d.pending == [] && d.machine.mode.AutoMode?
    && (if 960 * k < r then d.State().ReturningToLocal? && d.fade.remaining == r - 960 * k
        else d.State().LocalActive? && d.fade.remaining == 0)
  }

  /** Mixing and closing, from the decided state. */
  lemma FadeFrame(d: Control, n: nat, cfg: Config)
    requires Aimed(d, cfg) && d.State().ReturningToLocal? && d.fade.remaining == n && d.pending == []
    ensures var m := AfterMix(d);
      var t := CloseFade(m.(frame := m.frame + 1), cfg);
      if n > 960 then t.State().ReturningToLocal? && t.fade.remaining == n - 960
      else t.State().LocalActive? && t.fade.remaining == 0
  {
    MixKeeps(d, cfg);
    assert FRAME_SAMPLES == 960;
  }

  lemma RestFrame(d: Control, cfg: Config)
    requires Aimed(d, cfg) && d.State().LocalActive? && d.fade.remaining == 0
    ensures var m := AfterMix(d);
      var t := CloseFade(m.(frame := m.frame + 1), cfg); t.State().LocalActive? && t.fade.remaining == 0
  {
    MixKeeps(d, cfg);
  }

  lemma NextReturning(d: Control, src: Sources, r: nat, k: nat, cfg: Config)
    requires Returning(d, r, k, cfg) && Calm(src)
    ensures Returning(Tick(d, src, cfg), r, k + 1, cfg)
  {
    TickKeeps(d, src, cfg);
    CalmFrame(d, src, cfg);
    CalmTickMode(d, src, cfg);
    assert Decided(d, cfg) == d by { assert Drain(d, cfg) == d; }
    if 960 * k < r {
      FadeFrame(d, r - 960 * k, cfg);
    } else {
      RestFrame(d, cfg);
    }
  }

  lemma CalmTickMode(c: Control, src: Sources, cfg: Config)
    requires Settled(c, cfg) && c.pending == [] && Calm(src)
    ensures Tick(c, src, cfg).machine.mode == c.machine.mode
  {
    CalmTickApproaches(c, src, cfg);
  }

  /** The samples that a fade to local from position p takes. */
  lemma ToGo(f: Ramp, ms: nat, k: nat)
    requires f.WellFormed() && k > 0
    ensures 960 * k < Retarget(f, 0.0, ms).remaining <==> Outlasts(ms, f.position, 960 * k)
  {
    FullIs(ms);
    if f.position != 0.0 {
      var x := FullSamples(ms) as real * f.position;
      CeilFits(x, 960 * k);
      if ms == 0 {
        assert x <= 1.0;
      }
    }
  }

  lemma CeilFits(x: real, n: nat)
    ensures n < Ceil(x) <==> n as real < x
  {
  }

  lemma ReleaseDecided(c: Control, cfg: Config)
    requires Settled(c, cfg) && c.State().PhoneActive? && c.pending == []
    ensures var d := ApplyEvent(c, StopPtt, cfg);
      && Decided(Issue(c, ReleasePtt), cfg) == d && d.State().ReturningToLocal? && d.machine.mode.AutoMode?
      && d.fade == Retarget(c.fade, 0.0, cfg.crossfadeMs) && d.pending == []
  {
    assert Issue(c, ReleasePtt).pending == [StopPtt];
    DecidedAfter(Issue(c, ReleasePtt), StopPtt, ApplyEvent(c, StopPtt, cfg), cfg);
  }

  lemma CloseKeepsMode(d: Control, cfg: Config)
    ensures var m := AfterMix(d); CloseFade(m.(frame := m.frame + 1), cfg).machine.mode == d.machine.mode
  {
  }

  /** The frame of the release. */
  lemma ReleaseFrame(c: Control, src: Sources, cfg: Config)
    requires Settled(c, cfg) && c.State().PhoneActive? && c.pending == [] && Calm(src)
    ensures Returning(Tick(Issue(c, ReleasePtt), src, cfg), Retarget(c.fade, 0.0, cfg.crossfadeMs).remaining, 1, cfg)
  {
    var r, d := Issue(c, ReleasePtt), ApplyEvent(c, StopPtt, cfg);
    ReleaseDecided(c, cfg);
    CalmFrame(r, src, cfg);
    TickKeeps(r, src, cfg);
    FadeFrame(d, d.fade.remaining, cfg);
    CloseKeepsMode(d, cfg);
  }

  ghost predicate ReturningAfter(c: Control, feed: seq<Sources>, r: nat, cfg: Config) {
    Returning(AfterTicks(c, feed, cfg), r, |feed|, cfg)
  }

  lemma {:induction false} ReturnRun(c: Control, feed: seq<Sources>, r: nat, cfg: Config)
    requires |feed| > 0 && AllCalm(feed) && ReturningAfter(c, feed[..1], r, cfg)
    ensures ReturningAfter(c, feed, r, cfg)
  {
    if |feed| == 1 {
      assert feed == feed[..1];
    } else {
      var front := feed[..|feed| - 1];
      assert front[..1] == feed[..1];
      ReturnRun(c, front, r, cfg);
      NextReturning(AfterTicks(c, front, cfg), feed[|feed| - 1], r, |front|, cfg);
    }
  }

  predicate AllCalm(feed: seq<Sources>) {
    forall i | 0 <= i < |feed| :: Calm(feed[i])
  }

  lemma FirstFrame(c: Control, feed: seq<Sources>, cfg: Config)
    requires |feed| > 0
    ensures AfterTicks(c, feed[..1], cfg) == Tick(c, feed[0], cfg)
  {
    assert feed[..1][..0] == [] && feed[..1][0] == feed[0];
  }

  lemma ReturningIs(d: Control, r: nat, k: nat, cfg: Config)
    requires Returning(d, r, k, cfg)
    ensures if 960 * k < r then d.State().ReturningToLocal? else d.State().LocalActive? && d.fade.position == 0.0
  {
  }

  lemma Released(c: Control, feed: seq<Sources>, r: nat, cfg: Config)
    requires Settled(c, cfg) && c.State().PhoneActive? && c.pending == [] && |feed| > 0 && AllCalm(feed)
    requires r == Retarget(c.fade, 0.0, cfg.crossfadeMs).remaining
    ensures ReturningAfter(Issue(c, ReleasePtt), feed, r, cfg)
  {
    ReleaseFrame(c, feed[0], cfg);
    FirstFrame(Issue(c, ReleasePtt), feed, cfg);
    ReturnRun(Issue(c, ReleasePtt), feed, r, cfg);
  }

  /** The part p of a crossfade of ms milliseconds, at 48 samples each, outlasts n samples. */
  predicate Outlasts(ms: nat, p: real, n: nat) {
    n as real < (48 * ms) as real * p
  }

  /** After a release of a live phone at crossfade position p the router keeps returning for
      exactly as many frames as the part p of the crossfade needs, and is local with the
      crossfade at rest from then on: never before the phone has faded out, and no later. */
  lemma ReleaseFadesOut(c: Control, feed: seq<Sources>, cfg: Config)
    requires Settled(c, cfg) && c.State().PhoneActive? && c.pending == [] && |feed| > 0 && AllCalm(feed)
    ensures var d := AfterTicks(Issue(c, ReleasePtt), feed, cfg);
      if Outlasts(cfg.crossfadeMs, c.fade.position, 960 * |feed|) then d.State().ReturningToLocal?
      else d.State().LocalActive? && d.fade.position == 0.0
  {
    var r := Retarget(c.fade, 0.0, cfg.crossfadeMs).remaining;
    Released(c, feed, r, cfg);
    ToGo(c.fade, cfg.crossfadeMs, |feed|);
    ReturningIs(AfterTicks(Issue(c, ReleasePtt), feed, cfg), r, |feed|, cfg);
  }

  // ---------------------------------------------------------------- a press

  /** k frames after a press at frame f that nothing has answered, n being the arming time. */
  ghost predicate Unanswered(d: Control, f: nat, k: nat, n: nat, cfg: Config) {
    && Settled(d, cfg) && d.pending == [] && d.machine.mode.AutoMode? && d.frame == f + k
    && (if k <= n + 1 then d.State().PhoneArming? && d.armStarted == f
        else if k == n + 2 then d.State().ErrorRecovery?
        else d.State().LocalActive?)
  }

  lemma NextUnanswered(d: Control, src: Sources, f: nat, k: nat, n: nat, cfg: Config)
    requires Unanswered(d, f, k, n, cfg) && Calm(src) && n == WholeFrames(cfg.armTimeoutMs)
    ensures Unanswered(Tick(d, src, cfg), f, k + 1, n, cfg)
  {
    TickKeeps(d, src, cfg);
    CalmTickMode(d, src, cfg);
    CalmTick(d, src, cfg);
    TimersApproach(d, cfg);
    MixApproaches(Timers(d, cfg), cfg);
  }

  lemma PressFrame(c: Control, src: Sources, n: nat, cfg: Config)
    requires Settled(c, cfg) && c.pending == [] && c.machine.mode.AutoMode? && Calm(src)
    requires c.State().LocalActive? || c.State().ReturningToLocal?
    ensures Unanswered(Tick(Issue(c, PressPtt), src, cfg), c.frame, 1, n, cfg)
  {
    var p := Issue(c, PressPtt);
    assert p.pending == [StartPtt];
    var d := ApplyEvent(p.(pending := []), StartPtt, cfg);
    DecidedAfter(p, StartPtt, d, cfg);
    CalmFrame(p, src, cfg);
    TickKeeps(p, src, cfg);
    MixApproaches(d, cfg);
  }

  ghost predicate UnansweredAfter(c: Control, feed: seq<Sources>, f: nat, n: nat, cfg: Config) {
    Unanswered(AfterTicks(c, feed, cfg), f, |feed|, n, cfg)
  }

  lemma {:induction false} ArmingRun(c: Control, feed: seq<Sources>, f: nat, n: nat, cfg: Config)
    requires |feed| > 0 && AllCalm(feed) && UnansweredAfter(c, feed[..1], f, n, cfg)
    requires n == WholeFrames(cfg.armTimeoutMs)
    ensures UnansweredAfter(c, feed, f, n, cfg)
  {
    if |feed| == 1 {
      assert feed == feed[..1];
    } else {
      var front := feed[..|feed| - 1];
      assert front[..1] == feed[..1];
      ArmingRun(c, front, f, n, cfg);
      NextUnanswered(AfterTicks(c, front, cfg), feed[|feed| - 1], f, |front|, n, cfg);
    }
  }

  /** Arming for n frames beyond the first, recovering for one, and local. */
  predicate Phase(s: SourceState, k: nat, n: nat) {
    && (s.PhoneArming? <==> k <= n + 1)
    && (s.ErrorRecovery? <==> k == n + 2)
    && (s.LocalActive? <==> k > n + 2)
  }

  /** Whenever the router is local or returning, however long it has run, a press that nobody
      answers arms it for exactly armTimeoutMs / 20 frames, one at least, beyond the first;
      the next is recovery and from then on it is local. */
  lemma PressArmsInTime(c: Control, feed: seq<Sources>, cfg: Config)
    requires Settled(c, cfg) && c.pending == [] && c.machine.mode.AutoMode? && |feed| > 0 && AllCalm(feed)
    requires c.State().LocalActive? || c.State().ReturningToLocal?
    ensures Phase(AfterTicks(Issue(c, PressPtt), feed, cfg).State(), |feed|, WholeFrames(cfg.armTimeoutMs))
  {
    var pressed := Issue(c, PressPtt);
    PressFrame(c, feed[0], WholeFrames(cfg.armTimeoutMs), cfg);
    FirstFrame(pressed, feed, cfg);
    ArmingRun(pressed, feed, c.frame, WholeFrames(cfg.armTimeoutMs), cfg);
  }

  /** From the start, a press that is never answered arms for exactly the arming time, is in
      error recovery after one more tick, and back on the local source after the next. */
  lemma UnansweredPressRecovers(feed: seq<Sources>, cfg: Config)
    requires |feed| == WholeFrames(cfg.armTimeoutMs) + 3 && AllCalm(feed)
    ensures var pressed, n := Issue(START, PressPtt), WholeFrames(cfg.armTimeoutMs) + 1;
      && (forall k | 1 <= k <= n :: AfterTicks(pressed, feed[..k], cfg).State().PhoneArming?)
      && AfterTicks(pressed, feed[..n + 1], cfg).State().ErrorRecovery?
      && AfterTicks(pressed, feed[..n + 2], cfg).State().LocalActive?
  {
    forall k | 1 <= k <= |feed|
      ensures Phase(AfterTicks(Issue(START, PressPtt), feed[..k], cfg).State(), k, WholeFrames(cfg.armTimeoutMs))
    {
      PressArmsInTime(START, feed[..k], cfg);
    }
  }
}
