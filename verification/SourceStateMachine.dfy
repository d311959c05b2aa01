/** The routing state machine of windows/audio-service/src/source_state_machine.cpp. */
module SourceStates {

  datatype SourceState =
    | LocalActive | PhoneArming | PhoneActive | ReturningToLocal
    | PhoneOnly | LocalOnly | Muted | ErrorRecovery

  datatype RoutingMode = AutoMode | PhoneOnlyMode | LocalOnlyMode | MuteMode

  datatype Event =
    | StartPtt | StopPtt | PhoneReady | PhoneLost | ArmTimeout | FadeComplete
    | SourceFailure | Recovered | ModeAuto | ModePhoneOnly | ModeLocalOnly | ModeMute

  datatype Transition = Transition(accepted: bool, from: SourceState, to: SourceState, changed: bool)

  datatype Machine = Machine(state: SourceState, mode: RoutingMode)

  const INITIAL: Machine := Machine(LocalActive, AutoMode)

  function RestingState(m: RoutingMode): SourceState {
    match m
    case AutoMode => LocalActive
    case PhoneOnlyMode => PhoneOnly
    case LocalOnlyMode => LocalOnly
    case MuteMode => Muted
  }

  /** The mode an event selects, if it is a mode event. */
  function SelectedMode(e: Event, otherwise: RoutingMode): RoutingMode {
    match e
    case ModeAuto => AutoMode
    case ModePhoneOnly => PhoneOnlyMode
    case ModeLocalOnly => LocalOnlyMode
    case ModeMute => MuteMode
    case _ => otherwise
  }

  predicate IsModeEvent(e: Event) {
    e.ModeAuto? || e.ModePhoneOnly? || e.ModeLocalOnly? || e.ModeMute?
  }

  /** Whether the event is a legal edge out of the state; an illegal one changes nothing. */
  predicate Accepts(s: SourceState, e: Event) {
    match e
    case PhoneReady => s.PhoneArming? || s.PhoneActive? || s.PhoneOnly?
    case PhoneLost => s.PhoneArming? || s.PhoneActive? || s.PhoneOnly?
    case ArmTimeout => s.PhoneArming?
    case FadeComplete => s.ReturningToLocal?
    case Recovered => s.ErrorRecovery?
    case _ => true
  }

  /** The state after one event. */
  function Step(m: Machine, e: Event): Machine {
    var mode := SelectedMode(e, m.mode);
    var next :=
      if IsModeEvent(e) then RestingState(mode)
      else match (e, m.state)
        case (StartPtt, LocalActive) => if m.mode.AutoMode? then PhoneArming else m.state
        case (StartPtt, ReturningToLocal) => if m.mode.AutoMode? then PhoneArming else m.state
        case (StopPtt, PhoneActive) => if m.mode.AutoMode? then ReturningToLocal else m.state
        case (StopPtt, PhoneArming) => if m.mode.AutoMode? then LocalActive else m.state
        case (PhoneReady, PhoneArming) => PhoneActive
        case (PhoneLost, PhoneActive) => ReturningToLocal
        case (PhoneLost, PhoneArming) => ErrorRecovery
        case (ArmTimeout, PhoneArming) => ErrorRecovery
        case (FadeComplete, ReturningToLocal) => LocalActive
        case (SourceFailure, _) => ErrorRecovery
        case (Recovered, ErrorRecovery) => RestingState(m.mode)
        case _ => m.state;
    Machine(next, mode)
  }

  function StepAll(m: Machine, events: seq<Event>): Machine {
    if events == [] then m else Step(StepAll(m, events[..|events| - 1]), events[|events| - 1])
  }

  predicate WantsPhone(s: SourceState) {
    s.PhoneActive? || s.ReturningToLocal? || s.PhoneOnly?
  }

  predicate WantsLocal(s: SourceState) {
    s.LocalActive? || s.LocalOnly? || s.PhoneArming? || s.PhoneActive? || s.ReturningToLocal?
  }

  /** Each mode allows only its own states, plus error recovery. */
  predicate ModeAgrees(m: Machine) {
    || m.state.ErrorRecovery?
    || match m.mode
       case AutoMode => m.state.LocalActive? || m.state.PhoneArming? || m.state.PhoneActive? || m.state.ReturningToLocal?
       case PhoneOnlyMode => m.state.PhoneOnly?
       case LocalOnlyMode => m.state.LocalOnly?
       case MuteMode => m.state.Muted?
  }

  lemma StepKeepsMode(m: Machine, e: Event)
    requires ModeAgrees(m)
    ensures ModeAgrees(Step(m, e))
  {
  }

  /** What is reported as rejected changes nothing.  The router's own events are accepted
      exactly when they change the state, the phone's also wherever the phone is in use
      already, and all others always. */
  lemma AcceptedMeans(m: Machine, e: Event)
    ensures !Accepts(m.state, e) ==> Step(m, e) == m
    ensures e.ArmTimeout? || e.FadeComplete? ==> (Accepts(m.state, e) <==> Step(m, e).state != m.state)
    ensures e.Recovered? ==> (Accepts(m.state, e) <==> Step(m, e).state != m.state)
    ensures e.PhoneReady? || e.PhoneLost? ==>
      (Accepts(m.state, e) <==> Step(m, e).state != m.state || m.state.PhoneActive? || m.state.PhoneOnly?)
    ensures IsModeEvent(e) || e.StartPtt? || e.StopPtt? || e.SourceFailure? ==> Accepts(m.state, e)
  {
  }

  /** From the local microphone in automatic mode: press, acknowledgement, release and the end
      of the fade go through arming, live and returning and back; a release while arming goes
      straight back; and whatever stops arming otherwise goes through recovery. */
  lemma TalkCycle(m: Machine)
    requires m == Machine(LocalActive, AutoMode)
    ensures var arming := Step(m, StartPtt);
      var live := Step(arming, PhoneReady);
      var returning := Step(live, StopPtt);
      && arming.state.PhoneArming? && live.state.PhoneActive? && returning.state.ReturningToLocal?
      && Step(live, PhoneLost) == returning && Step(returning, StartPtt) == arming
      && Step(returning, FadeComplete) == m && Step(arming, StopPtt) == m
      && Step(arming, ArmTimeout).state.ErrorRecovery? && Step(arming, PhoneLost).state.ErrorRecovery?
      && Step(Step(arming, ArmTimeout), Recovered) == m
  {
  }

  lemma {:induction false} ModesConfineStates(m: Machine, events: seq<Event>)
    requires ModeAgrees(m)
    ensures ModeAgrees(StepAll(m, events))
  {
    if events != [] {
      ModesConfineStates(m, events[..|events| - 1]);
      StepKeepsMode(StepAll(m, events[..|events| - 1]), events[|events| - 1]);
    }
  }

  // ------------------------------------------------ when the microphone is open

  /** A press takes effect only from these states. */
  predicate CanArm(m: Machine) {
    m.mode.AutoMode? && (m.state.LocalActive? || m.state.ReturningToLocal?)
  }

  /** Events that end a talk spurt wherever it has got to. */
  predicate Closes(e: Event) {
    e.StopPtt? || e.PhoneLost? || e.SourceFailure? || IsModeEvent(e)
  }

  function After(events: seq<Event>): Machine {
    StepAll(INITIAL, events)
  }

  /** An effective press at i, and nothing since has disturbed the arming. */
  ghost predicate ArmedSince(events: seq<Event>, i: nat) {
    && i < |events|
    && CanArm(After(events[..i])) && events[i].StartPtt?
    && (forall k | i < k < |events| ::
          !Closes(events[k]) && !events[k].ArmTimeout? && !events[k].PhoneReady?)
  }

  /** An effective press at i acknowledged at j, and nothing since has closed it. */
  ghost predicate LiveSince(events: seq<Event>, i: nat, j: nat) {
    && i < j < |events|
    && CanArm(After(events[..i])) && events[i].StartPtt? && events[j].PhoneReady?
    && (forall k | i < k < |events| :: !Closes(events[k]))
    && (forall k | i < k < j :: !events[k].ArmTimeout? && !events[k].PhoneReady?)
  }

  lemma {:induction false} ArmingHistory(events: seq<Event>)
    ensures After(events).state.PhoneArming? <==> exists i: nat :: ArmedSince(events, i)
    ensures After(events).state.PhoneArming? || After(events).state.PhoneActive? ==>
              After(events).mode.AutoMode?
  {
    if events != [] {
      var last := |events| - 1;
      var front, e := events[..last], events[last];
      ArmingHistory(front);
      ModesConfineStates(INITIAL, front);
      if After(events).state.PhoneArming? {
        if After(front).state.PhoneArming? {
          var i: nat :| ArmedSince(front, i);
          assert front[..i] == events[..i];
          assert ArmedSince(events, i);
        } else {
          assert ArmedSince(events, last);
        }
      }
      if i: nat :| ArmedSince(events, i) {
        if i < last {
          assert front[..i] == events[..i];
          assert ArmedSince(front, i);
        }
      }
    }
  }

  /** How the last event bears on a talk spurt that is live before or after it. */
  lemma LiveStep(front: seq<Event>, e: Event)
    requires ModeAgrees(After(front))
    ensures After(front + [e]) == Step(After(front), e)
    ensures After(front + [e]).state.PhoneActive? <==>
            || (After(front).state.PhoneActive? && After(front).mode.AutoMode? && !Closes(e))
            || (After(front).state.PhoneArming? && e.PhoneReady?)
  {
    assert (front + [e])[..|front|] == front;
  }

  lemma LiveLonger(front: seq<Event>, e: Event, i: nat, j: nat)
    requires LiveSince(front, i, j) && !Closes(e)
    ensures LiveSince(front + [e], i, j)
  {
    assert (front + [e])[..i] == front[..i];
  }

  lemma LiveNow(front: seq<Event>, i: nat)
    requires ArmedSince(front, i)
    ensures LiveSince(front + [PhoneReady], i, |front|)
  {
    assert (front + [PhoneReady])[..i] == front[..i];
  }

  lemma LiveShorter(front: seq<Event>, e: Event, i: nat, j: nat)
    requires LiveSince(front + [e], i, j)
    ensures !Closes(e)
    ensures if j < |front| then LiveSince(front, i, j) else e.PhoneReady? && ArmedSince(front, i)
  {
    var events := front + [e];
    assert events[..i] == front[..i];
    assert events[|front|] == e;
    forall k | 0 <= k < |front|
      ensures front[k] == events[k]
    {
    }
  }

  /** The phone is live exactly when an effective press was acknowledged and nothing
      since the press has closed the talk spurt. */
  lemma {:induction false} LiveHistory(events: seq<Event>)
    ensures After(events).state.PhoneActive? <==> exists i: nat, j: nat :: LiveSince(events, i, j)
  {
    if events != [] {
      var front, e := events[..|events| - 1], events[|events| - 1];
      assert events == front + [e];
      LiveHistory(front);
      ArmingHistory(front);
      ModesConfineStates(INITIAL, front);
      LiveStep(front, e);
      if After(events).state.PhoneActive? {
        if After(front).state.PhoneActive? && !Closes(e) {
          var i: nat, j: nat :| LiveSince(front, i, j);
          LiveLonger(front, e, i, j);
        } else {
          var i: nat :| ArmedSince(front, i);
          LiveNow(front, i);
        }
      }
      if i: nat, j: nat :| LiveSince(events, i, j) {
        LiveShorter(front, e, i, j);
      }
    }
  }

  class SourceStateMachine {
    var state: SourceState
    var mode: RoutingMode

    ghost function View(): Machine
      reads this
    {
      Machine(state, mode)
    }

    constructor ()
      ensures View() == INITIAL
    {
      state, mode := LocalActive, AutoMode;
    }

    method Apply(e: Event) returns (t: Transition)
      modifies this
      ensures View() == Step(old(View()), e)
      ensures t == Transition(Accepts(old(state), e), old(state), state, old(state) != state)
    {
      var from := state;
      var to := from;
      var accepted := true;
      match e {
        case ModeAuto => mode := AutoMode; to := LocalActive;
        case ModePhoneOnly => mode := PhoneOnlyMode; to := PhoneOnly;
        case ModeLocalOnly => mode := LocalOnlyMode; to := LocalOnly;
        case ModeMute => mode := MuteMode; to := Muted;
        case StartPtt =>
          if mode == AutoMode && (from == LocalActive || from == ReturningToLocal) {
            to := PhoneArming;
          }
        case StopPtt =>
          if mode == AutoMode {
            if from == PhoneActive {
              to := ReturningToLocal;
            } else if from == PhoneArming {
              to := LocalActive;
            }
          }
        case PhoneReady =>
          if from == PhoneArming {
            to := PhoneActive;
          } else if from != PhoneActive && from != PhoneOnly {
            accepted := false;
          }
        case PhoneLost =>
          if from == PhoneActive {
            to := ReturningToLocal;
          } else if from == PhoneArming {
            to := ErrorRecovery;
          } else if from != PhoneOnly {
            accepted := false;
          }
        case ArmTimeout =>
          if from == PhoneArming { to := ErrorRecovery; } else { accepted := false; }
        case FadeComplete =>
          if from == ReturningToLocal { to := LocalActive; } else { accepted := false; }
        case SourceFailure => to := ErrorRecovery;
        case Recovered =>
          if from == ErrorRecovery { to := RestingState(mode); } else { accepted := false; }
      }
      if accepted {
        state := to;
      }
      t := Transition(accepted, from, if accepted then to else from, accepted && from != to);
    }
  }
}
