/** The audio that passes through the driver's ring: what a published sample is worth, when
    the driver takes the service to be gone, and what a reader hears of what was written
    (windows/audio-service/platform/windows/smartmic_driver_link.cpp, windows/driver/ring.cpp). */
module DriverAudio {
  import opened Slots
  import opened DriverRings

  // ---------------------------------------------------------------- samples

  /** The 16-bit value of a sample: within half a step of 32767 times it, and at most 32734 on
      either side. */
  predicate Worth(x: Sample, v: real) {
    && (-0.999 <= v <= 0.999 ==> x as real - 0.5 <= 32767.0 * v <= x as real + 0.5)
    && (v > 0.999 ==> x == 32734) && (v < -0.999 ==> x == -32734)
  }

  lemma PcmIsNearest(v: real)
    ensures Worth(Pcm16(v), v)
    ensures -32734 <= Pcm16(v) <= 32734
  {
  }

  /** The conversion treats both sides alike and keeps the order. */
  lemma PcmIsOdd(v: real)
    ensures Pcm16(-v) == -Pcm16(v)
  {
  }

  lemma PcmIsMonotone(v: real, w: real)
    requires v <= w
    ensures Pcm16(v) <= Pcm16(w)
  {
  }

  // ---------------------------------------------------------------- what is heard

  /** A run of the ring in which each write is a converted block of audio. */
  predicate Voiced(steps: seq<Step>, inputs: seq<seq<real>>) {
    && |inputs| == |steps|
    && forall i | 0 <= i < |steps| && steps[i].Write? :: steps[i].frames == Converted(inputs[i])
  }

  /** The audio of the writes that were admitted. */
  function Admitted(s: Shared, steps: seq<Step>, inputs: seq<seq<real>>): seq<real>
    requires |s.payload| == FRAMES && |inputs| == |steps|
  {
    if steps == [] then []
    else
      var n := |steps| - 1;
      Admitted(s, steps[..n], inputs[..n])
      + (if steps[n].Write? && Admits(TakeAll(s, steps[..n]), |steps[n].frames|) then inputs[n] else [])
  }

  ghost predicate Sounds(frames: seq<Sample>, audio: seq<real>) {
    |frames| == |audio| && forall i | 0 <= i < |frames| :: Worth(frames[i], audio[i])
  }

  lemma ConvertedSounds(input: seq<real>)
    ensures Sounds(Converted(input), input)
  {
    forall i | 0 <= i < |input|
      ensures Worth(Converted(input)[i], input[i])
    {
      PcmIsNearest(input[i]);
    }
  }

  /** What is published is the audio of the admitted writes. */
  lemma {:induction false} PublishedSounds(steps: seq<Step>, inputs: seq<seq<real>>)
    requires Voiced(steps, inputs)
    ensures Sounds(TakeAll(Blank(), steps).published, Admitted(Blank(), steps, inputs))
  {
    if steps != [] {
      var n := |steps| - 1;
      PublishedSounds(steps[..n], inputs[..n]);
      if steps[n].Write? {
        ConvertedSounds(inputs[n]);
      }
    }
  }

  /** Frames `from` to `from + got` of what sounds as written, then silence. */
  lemma WindowSounds(dst: seq<Sample>, frames: seq<Sample>, audio: seq<real>, from: nat, got: nat, i: nat)
    requires got <= |dst| && i < |dst| && Sounds(frames, audio)
    requires got > 0 ==> from + got <= |frames| && dst[..got] == frames[from..from + got]
    requires dst[got..] == Silence(|dst| - got)
    ensures if i < got then Worth(dst[i], audio[from + i]) else dst[i] == 0
  {
    if i < got {
      assert dst[..got][i] == frames[from..from + got][i];
    } else {
      assert dst[got..][i - got] == Silence(|dst| - got)[i - got];
    }
  }

  /** Frame i of a live read: the audio at its place, and silence when there is none. */
  ghost predicate ReadAs(s: Shared, audio: seq<real>, count: nat, now: nat, i: nat)
    requires |s.payload| == FRAMES && i < count
  {
    var dst := Drained(s, count, now);
    |dst| == count && if s.read + i < |audio| then Worth(dst[i], audio[s.read + i]) else dst[i] == 0
  }

  lemma Available(s: Shared, count: nat, i: nat)
    requires Faithful(s) && Start(s) == s.read && i < count
    ensures i < Real(s, count) <==> s.read + i < |s.published|
  {
  }

  /** A live read of such frames. */
  lemma ReadSounds(s: Shared, audio: seq<real>, count: nat, now: nat, i: nat)
    requires Faithful(s) && Alive(s, now) && Sounds(s.published, audio) && i < count
    ensures ReadAs(s, audio, count, now, i)
  {
    ReadReturnsPublished(s, count, now);
    Available(s, count, i);
    WindowSounds(Drained(s, count, now), s.published, audio, s.read, Real(s, count), i);
  }

  /** In every honest run a live read returns the written audio, in its place, and then
      silence. */
  lemma ReadSoundsAsWritten(steps: seq<Step>, inputs: seq<seq<real>>, count: nat, now: nat, i: nat)
    requires Voiced(steps, inputs) && AllHonest(Blank(), steps) && Alive(TakeAll(Blank(), steps), now) && i < count
    ensures ReadAs(TakeAll(Blank(), steps), Admitted(Blank(), steps, inputs), count, now, i)
  {
    EveryRunFaithful(steps);
    PublishedSounds(steps, inputs);
    ReadSounds(TakeAll(Blank(), steps), Admitted(Blank(), steps, inputs), count, now, i);
  }

  /** A reader that was lapped is given the newest 8192 frames. */
  lemma LappedReaderSkips(s: Shared, now: nat)
    requires |s.payload| == FRAMES && s.write == |s.published| && Alive(s, now)
    requires s.write > s.read + 8192 && Window(s.payload, Base(s.write), s.write) == s.published[Base(s.write)..]
    ensures Drained(s, 8192, now) == s.published[|s.published| - 8192..]
    ensures AfterDrain(s, 8192, now).read == s.write
  {
  }

  // ---------------------------------------------------------------- when the service is gone

  /** The clock counts 100 nanoseconds. After any write, even one that was refused, the
      producer is alive for exactly 250 milliseconds. */
  lemma WriteIsASignOfLife(s: Shared, frames: seq<Sample>, written: nat, now: nat)
    requires |s.payload| == FRAMES && written > 0 && now >= written
    ensures Alive(Publish(s, frames, written), now) <==> (now - written) * 100 < 250 * 1_000_000
  {
  }

  /** A producer that is not alive is heard as silence, and leaves the ring as it was. */
  lemma SilentWhenGone(s: Shared, count: nat, now: nat)
    requires |s.payload| == FRAMES && !Alive(s, now)
    ensures AfterDrain(s, count, now) == s
    ensures |Drained(s, count, now)| == count && forall i | 0 <= i < count :: Drained(s, count, now)[i] == 0
  {
  }
}
