/** The audio router of windows/audio-service/src/router.cpp: a state machine, two ramps,
    an event ring and three sample buffers, all updated in place by `Tick`. */
module Routers {
  import opened Crossfading
  import opened SourceStates
  import opened RouterModel
  import RingBuffers

  class AudioRouter {
    const cfg: Config
    const machine: SourceStateMachine
    const fade: Crossfade
    const gate: GainRamp
    const events: RingBuffers.RingBuffer<Event>
    const localBuf: array<real>
    const phoneBuf: array<real>
    const outBuf: array<real>
    var frame: nat
    var framesProduced: nat
    var armStarted: nat
    var lastHeartbeat: nat

    ghost function Repr(): set<object>
      reads this
    {
      {this, machine, fade, gate, events, events.data, localBuf, phoneBuf, outBuf}
    }

    ghost predicate Valid()
      reads Repr()
    {
      && events.Valid() && events.capacity == EVENT_SLOTS
      && localBuf.Length == FRAME_SAMPLES && phoneBuf.Length == FRAME_SAMPLES && outBuf.Length == FRAME_SAMPLES
      && localBuf != phoneBuf && localBuf != outBuf && phoneBuf != outBuf
      && fade.View().WellFormed() && gate.View().WellFormed()
    }

    /** The control state the specification functions work on. */
    ghost function View(): Control
      requires Valid()
      reads Repr()
    {
      Control(machine.View(), fade.View(), gate.View(), events.Contents(), frame, armStarted, lastHeartbeat)
    }

    constructor (cfg: Config)
      ensures Valid() && fresh(Repr())
      ensures View() == START && framesProduced == frame && this.cfg == cfg
    {
      this.cfg := cfg;
      machine := new SourceStateMachine();
      fade := new Crossfade();
      gate := new GainRamp(1.0);
      var e := new RingBuffers.RingBuffer<Event>(EVENT_SLOTS);
      RingBuffers.SmallestPow2(e.capacity);
      events := e;
      localBuf := new real[FRAME_SAMPLES](_ => 0.0);
      phoneBuf := new real[FRAME_SAMPLES](_ => 0.0);
      outBuf := new real[FRAME_SAMPLES](_ => 0.0);
      frame, framesProduced, armStarted, lastHeartbeat := 0, 0, 0, 0;
    }

    // -------------------------------------------------------------- control surface

    method Post(e: Event)
      requires Valid()
      modifies events, events.data
      ensures Valid() && View() == RouterModel.Post(old(View()), e)
    {
      var _ := events.Write([e]);
    }

    method SetMode(mode: RoutingMode)
      requires Valid()
      modifies events, events.data
      ensures Valid() && View() == Issue(old(View()), Command.SetMode(mode))
    {
      match mode {
        case AutoMode => Post(ModeAuto);
        case PhoneOnlyMode => Post(ModePhoneOnly);
        case LocalOnlyMode => Post(ModeLocalOnly);
        case MuteMode => Post(ModeMute);
      }
    }

    method StartPtt()
      requires Valid() && framesProduced == frame
      modifies this`lastHeartbeat, events, events.data
      ensures Valid() && View() == Issue(old(View()), PressPtt)
    {
      lastHeartbeat := framesProduced;
      Post(Event.StartPtt);
    }

    method StopPtt()
      requires Valid()
      modifies events, events.data
      ensures Valid() && View() == Issue(old(View()), ReleasePtt)
    {
      Post(Event.StopPtt);
    }

    method NotifyPhoneReady()
      requires Valid() && framesProduced == frame
      modifies this`lastHeartbeat, events, events.data
      ensures Valid() && View() == Issue(old(View()), NotifyReady)
    {
      lastHeartbeat := framesProduced;
      Post(PhoneReady);
    }

    method NotifyPhoneHeartbeat()
      requires Valid() && framesProduced == frame
      modifies this`lastHeartbeat
      ensures Valid() && View() == Issue(old(View()), NotifyHeartbeat)
    {
      lastHeartbeat := framesProduced;
    }

    method NotifyPhoneGone()
      requires Valid()
      modifies events, events.data
      ensures Valid() && View() == Issue(old(View()), NotifyGone)
    {
      Post(PhoneLost);
    }

    // -------------------------------------------------------------- audio thread

    method ApplyEvent(e: Event)
      requires Valid()
      modifies machine, fade, gate, this`armStarted
      ensures Valid() && View() == RouterModel.ApplyEvent(old(View()), e, cfg)
      ensures armStarted == old(armStarted) || armStarted == frame
    {
      ghost var before := View();
      var t := machine.Apply(e);
      ghost var m := machine.View();
      ApplyEventIs(before, m, e, cfg);
      if t.accepted && t.changed {
        Enter(t.to);
        assert View() == Entered(before, m, cfg);
      } else {
        assert View() == before.(machine := m);
      }
    }

    /** The second half of applying an event: what a changed state does to the ramps. */
    method Enter(to: SourceState)
      requires fade.View().WellFormed() && gate.View().WellFormed()
      modifies fade, gate, this`armStarted
      ensures fade.View().WellFormed() && gate.View().WellFormed()
      ensures gate.View() == Retarget(old(gate.View()), GateTarget(to), cfg.crossfadeMs)
      ensures fade.View() == if to == ErrorRecovery then old(fade.View())
                             else Retarget(old(fade.View()), FadeTarget(to), cfg.crossfadeMs)
      ensures armStarted == if to == PhoneArming then frame else old(armStarted)
    {
      var silent := to == Muted || to == ErrorRecovery;
      gate.RampTo(if silent then 0.0 else 1.0, cfg.crossfadeMs);
      match to {
        case PhoneActive => fade.FadeTo(1.0, cfg.crossfadeMs);
        case PhoneOnly => fade.FadeTo(1.0, cfg.crossfadeMs);
        case PhoneArming =>
          armStarted := frame;
          fade.FadeTo(0.0, cfg.crossfadeMs);
        case ReturningToLocal => fade.FadeTo(0.0, cfg.crossfadeMs);
        case LocalActive => fade.FadeTo(0.0, cfg.crossfadeMs);
        case LocalOnly => fade.FadeTo(0.0, cfg.crossfadeMs);
        case Muted => fade.FadeTo(0.0, cfg.crossfadeMs);
        case ErrorRecovery =>
      }
    }

    method DrainEvents()
      requires Valid()
      modifies machine, fade, gate, this`armStarted, events
      ensures Valid() && View() == Drain(old(View()), cfg)
      ensures old(armStarted) <= frame ==> armStarted <= frame
    {
      ghost var start := View();
      var raw := NextEvent();
      while |raw| == 1
        invariant Valid() && |raw| <= 1
        invariant |raw| == 0 ==> View().pending == []
        invariant old(armStarted) <= frame ==> armStarted <= frame
        invariant ApplyAll(View().(pending := []), raw + View().pending, cfg) == Drain(start, cfg)
        decreases |raw| + |View().pending|
      {
        ghost var rest := View().pending;
        assert raw == [raw[0]];
        ApplyAllTurn(View(), raw[0], rest, cfg);
        ApplyEvent(raw[0]);
        raw := NextEvent();
        assert raw + View().pending == rest;
      }
      assert raw + View().pending == [];
    }

    /** One read of the event ring: the oldest event, if there is one. */
    method NextEvent() returns (raw: seq<Event>)
      requires Valid()
      modifies events
      ensures Valid() && |raw| <= 1
      ensures |raw| == 0 <==> old(View().pending) == []
      ensures raw + View().pending == old(View().pending)
      ensures View() == old(View()).(pending := View().pending)
    {
      raw := events.Read(1);
    }

    method UpdateTimers()
      requires Valid()
      requires armStarted <= frame
      modifies machine, fade, gate, this`armStarted
      ensures Valid() && View() == Timers(old(View()), cfg) && armStarted <= frame
    {
      if machine.state == ErrorRecovery {
        ApplyEvent(Recovered);
        return;
      }
      if machine.state == PhoneArming && frame - armStarted > FramesFor(cfg.armTimeoutMs) {
        ApplyEvent(ArmTimeout);
        return;
      }
      if machine.state == PhoneActive {
        var last := lastHeartbeat;
        if frame > last && frame - last > FramesFor(cfg.phoneLostTimeoutMs) {
          ApplyEvent(PhoneLost);
        }
      }
    }

    method Fill(src: Source, wanted: bool, buf: array<real>)
      requires Valid() && (buf == localBuf || buf == phoneBuf)
      modifies machine, fade, gate, this`armStarted, buf
      ensures Valid() && View() == AfterRead(old(View()), src, wanted, cfg)
      ensures buf[..] == Filled(src, wanted)
      ensures armStarted == old(armStarted) || armStarted == frame
    {
      if !wanted || src == Absent {
        forall i | 0 <= i < FRAME_SAMPLES { buf[i] := 0.0; }
        return;
      }
      if src == Failing {
        forall i | 0 <= i < FRAME_SAMPLES { buf[i] := 0.0; }
        ApplyEvent(SourceFailure);
      } else {
        forall i | 0 <= i < FRAME_SAMPLES { buf[i] := src.samples[i]; }
      }
    }

    method ReadSources(src: Sources) returns (phoneRead: bool)
      requires Valid()
      modifies machine, fade, gate, this`armStarted, localBuf, phoneBuf
      ensures Valid() && View() == AfterSources(old(View()), src, cfg)
      ensures phoneRead == ReadsPhone(old(View()), src, cfg)
      ensures localBuf[..] == LocalFrame(old(View()), src)
      ensures phoneBuf[..] == PhoneFrame(old(View()), src, cfg)
      ensures armStarted == old(armStarted) || armStarted == frame
    {
      var holdForGate := gate.Active();
      Fill(src.local, WantsLocal(machine.state) || holdForGate, localBuf);
      phoneRead := WantsPhone(machine.state) || holdForGate;
      Fill(src.phone, phoneRead, phoneBuf);
    }

    method MixAndWrite()
      requires Valid()
      modifies fade, gate, outBuf
      ensures Valid() && View() == AfterMix(old(View()))
      ensures outBuf[..] == Mix(old(View()), localBuf[..], phoneBuf[..], cfg)
    {
      ghost var c := View();
      for i := 0 to FRAME_SAMPLES
        invariant fade.View().WellFormed() && gate.View().WellFormed()
        invariant fade.View() == AdvanceN(c.fade, i) && gate.View() == AdvanceN(c.gate, i)
        invariant forall k | 0 <= k < i ::
          outBuf[k] == MixSample(localBuf[k], phoneBuf[k],
            AdvanceN(c.fade, k + 1).position, AdvanceN(c.gate, k + 1).position, cfg)
      {
        MixOne(i);
      }
    }

    /** One turn of the mixing loop. */
    method MixOne(i: nat)
      requires i < FRAME_SAMPLES == localBuf.Length == phoneBuf.Length == outBuf.Length
      requires outBuf != localBuf && outBuf != phoneBuf
      requires fade.View().WellFormed() && gate.View().WellFormed()
      modifies fade, gate, outBuf
      ensures fade.View().WellFormed() && gate.View().WellFormed()
      ensures fade.View() == Advance(old(fade.View())) && gate.View() == Advance(old(gate.View()))
      ensures outBuf[i] == MixSample(localBuf[i], phoneBuf[i], fade.View().position, gate.View().position, cfg)
      ensures forall k | 0 <= k < FRAME_SAMPLES && k != i :: outBuf[k] == old(outBuf[k])
    {
      var gains := fade.Next(cfg.curve);
      var opening := gate.Next(cfg.curve);
      var s := Blend(localBuf[i], phoneBuf[i], gains, opening, cfg);
      if s > CEILING {
        s := CEILING;
      } else if s < -CEILING {
        s := -CEILING;
      }
      outBuf[i] := s;
    }

    /** Exactly one frame per call, in every state.  `sinkAccepts` is the sink's answer; a
        refusing sink does not stop the state machine. `phoneRead` says that the phone source,
        if there is one, was asked for its frame. */
    method Tick(src: Sources, sinkAccepts: bool) returns (ok: bool, phoneRead: bool)
      requires Valid() && framesProduced == frame && armStarted <= frame
      modifies Repr()
      ensures Valid() && framesProduced == frame && armStarted <= frame
      ensures View() == RouterModel.Tick(old(View()), src, cfg)
      ensures outBuf[..] == Output(old(View()), src, cfg)
      ensures ok == sinkAccepts && phoneRead == ReadsPhone(Decided(old(View()), cfg), src, cfg)
    {
      ghost var start := View();
      phoneRead := ProduceFrame(src);
      ghost var mixed := View();
      CountFrame();
      ghost var counted := View();
      ok := sinkAccepts;
      CloseFade();
      TickStages(start, mixed, counted, src, cfg);
    }

    method CountFrame()
      requires Valid()
      modifies this`frame, this`framesProduced
      ensures Valid() && View() == old(View()).(frame := old(frame) + 1)
      ensures framesProduced == frame == old(frame) + 1
    {
      frame := frame + 1;
      framesProduced := frame;
    }

    method CloseFade()
      requires Valid()
      modifies machine, fade, gate, this`armStarted
      ensures Valid() && View() == RouterModel.CloseFade(old(View()), cfg)
      ensures armStarted == old(armStarted) || armStarted == frame
    {
      if machine.state == ReturningToLocal && !fade.Active() {
        ApplyEvent(FadeComplete);
      }
    }

    /** The four stages of a tick before the frame is counted. */
    method ProduceFrame(src: Sources) returns (phoneRead: bool)
      requires Valid() && armStarted <= frame
      modifies machine, fade, gate, this`armStarted, events, localBuf, phoneBuf, outBuf
      ensures Valid() && armStarted <= frame
      ensures View() == Mixed(old(View()), src, cfg)
      ensures outBuf[..] == Output(old(View()), src, cfg)
      ensures phoneRead == ReadsPhone(Decided(old(View()), cfg), src, cfg)
    {
      ghost var c := View();
      Decide();
      ghost var d := View();
      phoneRead := ReadSources(src);
      MixAndWrite();
      assert View() == AfterMix(AfterSources(d, src, cfg));
    }

    method Decide()
      requires Valid() && armStarted <= frame
      modifies machine, fade, gate, this`armStarted, events
      ensures Valid() && armStarted <= frame
      ensures View() == Decided(old(View()), cfg)
    {
      DrainEvents();
      UpdateTimers();
    }
  }
}
