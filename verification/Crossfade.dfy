/** The two sample-clocked ramps of windows/audio-service/src/crossfade.cpp.

    `Crossfade` moves a position between 0 (local) and 1 (phone); `GainRamp` moves the
    output gate. Both are the same ramp, specified here on values by `Retarget` and
    `Advance`. Floats are modelled as reals, so the landing assignment and the clamp in
    the class bodies are proved to change nothing. */
module Crossfading {
  import opened Basics

  const SAMPLE_RATE: nat := 48000

  function MillisToSamples(ms: nat): nat {
    SAMPLE_RATE * ms / 1000
  }

  /** Samples of a full 0-to-1 traversal, never zero. */
  function FullSamples(ms: nat): (n: nat)
    ensures n >= 1
  {
    if MillisToSamples(ms) < 1 then 1 else MillisToSamples(ms)
  }

  function Clamp01(x: real): real {
    if x < 0.0 then 0.0 else if x > 1.0 then 1.0 else x
  }

  /** A traversal of part of the range takes that part of the full time, at least one sample. */
  function SamplesFor(full: nat, distance: real): (n: nat)
    ensures n >= 1
  {
    if Ceil(full as real * distance) < 1 then 1 else Ceil(full as real * distance)
  }

  /** The gain laws driven by the ramps. The source uses cos, sin and a raised cosine;
      only the facts in `Ideal` are used about them. */
  datatype Curve = Curve(local: real -> real, phone: real -> real, gate: real -> real) {
    ghost predicate Ideal() {
      && local(0.0) == 1.0 && phone(0.0) == 0.0
      && local(1.0) == 0.0 && phone(1.0) == 1.0
      && gate(0.0) == 0.0 && gate(1.0) == 1.0
      && (forall p: real | 0.0 <= p <= 1.0 ::
            local(p) * local(p) + phone(p) * phone(p) == 1.0)
      && (forall p: real | 0.0 <= p <= 1.0 :: 0.0 <= gate(p) <= 1.0)
    }
  }

  datatype GainPair = GainPair(local: real, phone: real)

  datatype Ramp = Ramp(position: real, target: real, step: real, remaining: nat) {

    /** The position is exactly `remaining` steps away from the target. */
    ghost predicate WellFormed() {
      && 0.0 <= position <= 1.0
      && 0.0 <= target <= 1.0
      && target - position == step * remaining as real
      && (remaining > 0 <==> position != target)
    }

    /** No faster than one full traversal in `full` samples. */
    ghost predicate Paced(full: nat) {
      remaining <= full && Abs(step) * full as real <= 1.0
    }

    predicate Active() {
      remaining > 0
    }
  }

  function Retarget(r: Ramp, target: real, ms: nat): Ramp {
    var t := Clamp01(target);
    var distance := t - r.position;
    if distance == 0.0 then Ramp(r.position, t, 0.0, 0)
    else
      var samples := SamplesFor(FullSamples(ms), Abs(distance));
      Ramp(r.position, t, distance / samples as real, samples)
  }

  function Snap(target: real): Ramp {
    Ramp(Clamp01(target), Clamp01(target), 0.0, 0)
  }

  function Advance(r: Ramp): Ramp {
    if r.remaining == 0 then r
    else Ramp(r.position + r.step, r.target, r.step, r.remaining - 1)
  }

  function AdvanceN(r: Ramp, n: nat): Ramp {
    if n == 0 then r else Advance(AdvanceN(r, n - 1))
  }

  /** Every call a client can make with one duration. */
  datatype RampCall = To(target: real) | Next

  function Call(r: Ramp, c: RampCall, ms: nat): Ramp {
    match c
    case To(t) => Retarget(r, t, ms)
    case Next => Advance(r)
  }

  /** The ramp before the first call and after each call. */
  function Trace(r: Ramp, calls: seq<RampCall>, ms: nat): (trace: seq<Ramp>)
    ensures |trace| == |calls| + 1
    ensures trace[0] == r
    ensures forall i | 0 <= i < |calls| :: trace[i + 1] == Call(trace[i], calls[i], ms)
  {
    if calls == [] then [r]
    else
      var last := |calls| - 1;
      var front := Trace(r, calls[..last], ms);
      front + [Call(front[last], calls[last], ms)]
  }

  // ---------------------------------------------------------------- arithmetic

  lemma ScaleSub(x: real, n: nat)
    requires n > 0
    ensures x * (n - 1) as real == x * n as real - x
  {
  }

  /** Dividing a distance over at least `full * |distance|` samples bounds the step. */
  lemma StepBound(distance: real, full: nat, samples: nat)
    requires samples >= 1
    requires full as real * Abs(distance) <= samples as real
    ensures Abs(distance / samples as real) * full as real <= 1.0
    ensures (distance / samples as real) * samples as real == distance
  {
    var step := distance / samples as real;
    assert step * samples as real == distance;
    assert Abs(step) * samples as real == Abs(distance);
    if Abs(step) * full as real > 1.0 {
      calc {
        full as real * Abs(distance);
        (Abs(step) * full as real) * samples as real;
      >
        samples as real;
      }
    }
  }

  lemma ScaledDown(x: real, part: real)
    requires x >= 0.0 && 0.0 <= part <= 1.0
    ensures 0.0 <= x * part <= x
  {
    assert x * (1.0 - part) >= 0.0;
    assert x * (1.0 - part) == x - x * part;
  }

  lemma SamplesForBounds(full: nat, distance: real)
    requires full >= 1 && 0.0 <= distance <= 1.0
    ensures SamplesFor(full, distance) <= full
    ensures full as real * distance <= SamplesFor(full, distance) as real
  {
    var scaled := full as real * distance;
    ScaledDown(full as real, distance);
    assert scaled <= full as real;
  }

  // ---------------------------------------------------------------- one call

  lemma RetargetKeeps(r: Ramp, target: real, ms: nat)
    requires r.WellFormed()
    ensures Retarget(r, target, ms).WellFormed()
    ensures Retarget(r, target, ms).Paced(FullSamples(ms))
    ensures Retarget(r, target, ms).position == r.position
    ensures Retarget(r, target, ms).target == Clamp01(target)
  {
    if Clamp01(target) != r.position {
      TraversalOk(r.position, Clamp01(target), FullSamples(ms));
    }
  }

  lemma TraversalOk(from: real, to: real, full: nat)
    requires 0.0 <= from <= 1.0 && 0.0 <= to <= 1.0 && from != to && full >= 1
    ensures var samples := SamplesFor(full, Abs(to - from));
      var r := Ramp(from, to, (to - from) / samples as real, samples);
      r.WellFormed() && r.Paced(full)
  {
    SamplesForBounds(full, Abs(to - from));
    StepBound(to - from, full, SamplesFor(full, Abs(to - from)));
  }

  lemma AdvanceKeeps(r: Ramp)
    requires r.WellFormed()
    ensures Advance(r).WellFormed()
    ensures Advance(r).target == r.target
    ensures Advance(r).position == r.position + (if r.remaining > 0 then r.step else 0.0)
  {
    if r.remaining > 0 {
      NextInside(r.position, r.target, r.step, r.remaining);
    }
  }

  /** One step of n lands on the target if it is the last one, and otherwise strictly
      between the position and the target. */
  lemma NextInside(position: real, target: real, step: real, n: nat)
    requires n > 0 && target - position == step * n as real && position != target
    ensures target - (position + step) == step * (n - 1) as real
    ensures n == 1 ==> position + step == target
    ensures n > 1 ==> position < position + step < target || target < position + step < position
  {
    var whole, rest := step * n as real, step * (n - 1) as real;
    ScaleSub(step, n);
    assert rest == whole - step;
    if n == 1 {
      assert rest == 0.0;
    } else {
      ZeroStep(step, n);
      StepTowards(step, n);
    }
  }

  lemma ZeroStep(step: real, n: nat)
    ensures step == 0.0 ==> step * n as real == 0.0
  {
  }

  /** A partial product lies strictly between zero and the whole. */
  lemma StepTowards(step: real, n: nat)
    requires n > 1 && step != 0.0
    ensures step > 0.0 ==> 0.0 < step * (n - 1) as real < step * n as real
    ensures step < 0.0 ==> step * n as real < step * (n - 1) as real < 0.0
  {
    ScaleSub(step, n);
    if step > 0.0 {
      assert step * (n - 1) as real > 0.0;
    } else {
      assert (-step) * (n - 1) as real > 0.0;
    }
  }

  /** What one client call keeps and how far it can move the position. */
  lemma CallKeeps(r: Ramp, c: RampCall, ms: nat)
    requires r.WellFormed() && r.Paced(FullSamples(ms))
    ensures Call(r, c, ms).WellFormed() && Call(r, c, ms).Paced(FullSamples(ms))
    ensures Moved(r, Call(r, c, ms), FullSamples(ms))
    ensures c.To? ==> Call(r, c, ms).position == r.position
  {
    match c
    case To(t) => RetargetKeeps(r, t, ms);
    case Next => AdvanceKeeps(r);
  }

  /** The position moved by at most 1 / full. */
  ghost predicate Moved(before: Ramp, after: Ramp, full: nat) {
    Abs(after.position - before.position) * full as real <= 1.0
  }

  /** The position moved by at most one part in the 48 samples of each millisecond. */
  ghost predicate Gentle(before: Ramp, after: Ramp, ms: nat) {
    Abs(after.position - before.position) * (48 * ms) as real <= 1.0
  }

  // ---------------------------------------------------------------- whole runs

  ghost predicate Smooth(trace: seq<Ramp>, calls: seq<RampCall>, ms: nat) {
    && |trace| == |calls| + 1
    && (forall i | 0 <= i < |trace| :: trace[i].WellFormed() && trace[i].Paced(FullSamples(ms)))
    && (forall i | 0 <= i < |calls| :: Moved(trace[i], trace[i + 1], FullSamples(ms)))
    && (forall i | 0 <= i < |calls| && calls[i].To? :: trace[i + 1].position == trace[i].position)
  }

  lemma {:induction false} SmoothTrace(r: Ramp, calls: seq<RampCall>, ms: nat)
    requires r.WellFormed() && r.Paced(FullSamples(ms))
    ensures Smooth(Trace(r, calls, ms), calls, ms)
  {
    if calls != [] {
      var last := |calls| - 1;
      var front := Trace(r, calls[..last], ms);
      SmoothTrace(r, calls[..last], ms);
      assert front[last].WellFormed();
      CallKeeps(front[last], calls[last], ms);
    }
  }

  /** Over any mix of retargets of one duration and samples: the position stays in
      [0, 1], a retarget never moves it, and no sample moves it by more than one part in
      the 48 samples of each millisecond. */
  lemma SmoothRun(r: Ramp, calls: seq<RampCall>, ms: nat, i: nat)
    requires r.WellFormed() && r.Paced(FullSamples(ms)) && i < |calls|
    ensures var trace := Trace(r, calls, ms);
      && 0.0 <= trace[i].position <= 1.0 && 0.0 <= trace[i + 1].position <= 1.0
      && Gentle(trace[i], trace[i + 1], ms)
      && (calls[i].To? ==> trace[i + 1].position == trace[i].position)
  {
    SmoothTrace(r, calls, ms);
    var trace := Trace(r, calls, ms);
    assert trace[i].WellFormed() && trace[i + 1].WellFormed() && Moved(trace[i], trace[i + 1], FullSamples(ms));
    MovedInMillis(trace[i], trace[i + 1], ms);
  }

  /** A millisecond has 48 samples. */
  lemma FullIs(ms: nat)
    ensures FullSamples(ms) == if ms == 0 then 1 else 48 * ms
  {
  }

  lemma MovedInMillis(before: Ramp, after: Ramp, ms: nat)
    requires Moved(before, after, FullSamples(ms))
    ensures Gentle(before, after, ms)
  {
    FullIs(ms);
  }

  /** Undisturbed, the ramp lands on its target after exactly `remaining` samples and
      then stays there. */
  lemma {:induction false} LandsExactly(r: Ramp, n: nat)
    requires r.WellFormed()
    ensures AdvanceN(r, n).WellFormed()
    ensures AdvanceN(r, n).target == r.target
    ensures AdvanceN(r, n).remaining == if n < r.remaining then r.remaining - n else 0
    ensures AdvanceN(r, n).position == r.target <==> n >= r.remaining
  {
    if n > 0 {
      LandsExactly(r, n - 1);
      AdvanceKeeps(AdvanceN(r, n - 1));
    }
  }

  /** A retarget is finished within one full traversal, 48 samples a millisecond, whatever
      was going on before. */
  lemma RetargetFinishes(r: Ramp, target: real, ms: nat, n: nat)
    requires r.WellFormed() && n >= 48 * ms && n >= 1
    ensures AdvanceN(Retarget(r, target, ms), n).position == Clamp01(target)
  {
    FullIs(ms);
    RetargetKeeps(r, target, ms);
    LandsExactly(Retarget(r, target, ms), n);
  }

  /** The samples of that part of a full traversal, 48 a millisecond, have passed. */
  predicate Due(from: real, to: real, ms: nat, n: nat) {
    n as real >= Abs(to - from) * (48 * ms) as real
  }

  /** How long it takes, exactly: the part of a full traversal that there is to go, rounded
      up to a whole sample. */
  lemma ArrivesAfter(r: Ramp, target: real, ms: nat, n: nat)
    requires r.WellFormed() && 0.0 <= target <= 1.0 && ms >= 1
    ensures AdvanceN(Retarget(r, target, ms), n).position == target <==>
            Due(r.position, target, ms, n)
  {
    RetargetKeeps(r, target, ms);
    LandsExactly(Retarget(r, target, ms), n);
    if target != r.position {
      NeedsSamples(r.position, target, ms, n);
    }
  }

  /** Rounding up. */
  lemma NeedsSamples(from: real, to: real, ms: nat, n: nat)
    requires ms >= 1 && from != to
    ensures Due(from, to, ms, n) <==> n >= SamplesFor(FullSamples(ms), Abs(to - from))
  {
    FullIs(ms);
    var part := FullSamples(ms) as real * Abs(to - from);
    assert part > 0.0 && part == Abs(to - from) * (48 * ms) as real;
  }

  /** From one end to the other: after exactly 48 samples a millisecond, and not before. */
  lemma FullFade(ms: nat, n: nat)
    requires ms >= 1
    ensures AdvanceN(Retarget(Snap(0.0), 1.0, ms), n).position == 1.0 <==> n >= 48 * ms
    ensures AdvanceN(Retarget(Snap(1.0), 0.0, ms), n).position == 0.0 <==> n >= 48 * ms
  {
    ArrivesAfter(Snap(0.0), 1.0, ms, n);
    ArrivesAfter(Snap(1.0), 0.0, ms, n);
  }

  /** `Ideal` can be met: the rational parametrisation of the circle meets it. */
  lemma IdealCurveExists() returns (c: Curve)
    ensures c.Ideal()
  {
    c := Curve((p: real) => (1.0 - p * p) / (1.0 + p * p),
               (p: real) => 2.0 * p / (1.0 + p * p),
               (p: real) => p);
    forall p: real | 0.0 <= p <= 1.0
      ensures c.local(p) * c.local(p) + c.phone(p) * c.phone(p) == 1.0
    {
      RationalCircle(p);
    }
  }

  lemma RationalCircle(p: real)
    ensures 1.0 + p * p != 0.0
    ensures var l, s := (1.0 - p * p) / (1.0 + p * p), 2.0 * p / (1.0 + p * p);
      l * l + s * s == 1.0
  {
    var d := 1.0 + p * p;
    assert p * p >= 0.0;
    var l, s := (1.0 - p * p) / d, 2.0 * p / d;
    assert l * d == 1.0 - p * p && s * d == 2.0 * p;
    calc {
      (l * l + s * s) * (d * d);
      (l * d) * (l * d) + (s * d) * (s * d);
      (1.0 - p * p) * (1.0 - p * p) + (2.0 * p) * (2.0 * p);
      1.0 - 2.0 * (p * p) + (p * p) * (p * p) + 4.0 * (p * p);
      d * d;
    }
    assert d * d > 0.0;
    assert (l * l + s * s - 1.0) * (d * d) == 0.0;
  }

  // ---------------------------------------------------------------- the classes

  class Crossfade {
    var position: real
    var target: real
    var step: real
    var remaining: nat

    ghost function View(): Ramp
      reads this
    {
      Ramp(position, target, step, remaining)
    }

    constructor ()
      ensures View() == Snap(0.0)
    {
      position, target, step, remaining := 0.0, 0.0, 0.0, 0;
    }

    method FadeTo(newTarget: real, durationMs: nat)
      requires View().WellFormed()
      modifies this
      ensures View() == Retarget(old(View()), newTarget, durationMs) && View().WellFormed()
    {
      RetargetKeeps(View(), newTarget, durationMs);
      target := Clamp01(newTarget);
      var distance := target - position;
      if distance == 0.0 {
        remaining := 0;
        step := 0.0;
        return;
      }
      var samples := SamplesFor(FullSamples(durationMs), Abs(distance));
      remaining := samples;
      step := distance / samples as real;
    }

    method SnapTo(newTarget: real)
      modifies this
      ensures View() == Snap(newTarget)
    {
      position := Clamp01(newTarget);
      target := position;
      remaining := 0;
      step := 0.0;
    }

    method Next(curve: Curve) returns (g: GainPair)
      requires View().WellFormed()
      modifies this
      ensures View() == Advance(old(View())) && View().WellFormed()
      ensures g == GainPair(curve.local(position), curve.phone(position))
    {
      AdvanceKeeps(View());
      if remaining > 0 {
        position := position + step;
        remaining := remaining - 1;
        if remaining == 0 {
          position := target;
        }
        position := Clamp01(position);
      }
      g := GainPair(curve.local(position), curve.phone(position));
    }

    predicate Active()
      reads this
    {
      remaining > 0
    }
  }

  class GainRamp {
    var value: real
    var target: real
    var step: real
    var remaining: nat

    ghost function View(): Ramp
      reads this
    {
      Ramp(value, target, step, remaining)
    }

    constructor (initial: real)
      ensures View() == Ramp(initial, initial, 0.0, 0)
    {
      value, target, step, remaining := initial, initial, 0.0, 0;
    }

    method RampTo(newTarget: real, durationMs: nat)
      requires View().WellFormed()
      modifies this
      ensures View() == Retarget(old(View()), newTarget, durationMs) && View().WellFormed()
    {
      RetargetKeeps(View(), newTarget, durationMs);
      target := Clamp01(newTarget);
      var distance := target - value;
      if distance == 0.0 {
        remaining := 0;
        step := 0.0;
        return;
      }
      var samples := SamplesFor(FullSamples(durationMs), Abs(distance));
      remaining := samples;
      step := distance / samples as real;
    }

    method Next(curve: Curve) returns (gain: real)
      requires View().WellFormed()
      modifies this
      ensures View() == Advance(old(View())) && View().WellFormed()
      ensures gain == curve.gate(value)
    {
      AdvanceKeeps(View());
      if remaining > 0 {
        value := value + step;
        remaining := remaining - 1;
        if remaining == 0 {
          value := target;
        }
        value := Clamp01(value);
      }
      gain := curve.gate(value);
    }

    predicate Active()
      reads this
    {
      remaining > 0
    }
  }
}
