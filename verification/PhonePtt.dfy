/** The phone's push-to-talk machine: press, release, the PC's answers and the worker's
    timeouts (apps/phone-core/phone_runtime.cpp). */
module PhonePtt {
  import opened Basics
  import opened PeerSessionModel

  const ARM_TIMEOUT_MS: nat := 1500
  const RELEASE_TIMEOUT_MS: nat := 800

  datatype PttState = UiReady | UiConnecting | UiLive | UiReleasing | UiFailed

  datatype Phone = Phone(authenticated: bool, ptt: PttState, pressed: bool, pressedAt: nat, releasedAt: nat)

  const POWERED_ON: Phone := Phone(false, UiReady, false, 0, 0)

  function AfterPress(p: Phone, now: nat): Phone {
    if !p.authenticated || p.pressed then p
    else p.(pressed := true, pressedAt := now, ptt := UiConnecting)
  }

  /** A press that counts asks the PC for the microphone. */
  predicate PressSends(p: Phone) {
    p.authenticated && !p.pressed
  }

  function AfterRelease(p: Phone, now: nat): Phone {
    if !p.authenticated then p.(pressed := false, ptt := UiReady)
    else p.(pressed := false, releasedAt := now, ptt := if p.ptt.UiReady? then UiReady else UiReleasing)
  }

  function Answered(p: Phone, kind: Kind): Phone {
    match kind
    case PttReady => if p.pressed then p.(ptt := UiLive) else p
    case PttStopped => p.(ptt := UiReady)
    case _ => p
  }

  /** The difference of two 64-bit clock readings. */
  function Elapsed(t: nat, since: nat): nat {
    (t - since) % U64
  }

  function Check(p: Phone, t: nat): Phone {
    if !p.authenticated then p
    else
      var armed := if p.ptt.UiConnecting? && Elapsed(t, p.pressedAt) > ARM_TIMEOUT_MS
                   then p.(ptt := UiFailed, pressed := false) else p;
      if armed.ptt.UiReleasing? && Elapsed(t, armed.releasedAt) > RELEASE_TIMEOUT_MS
      then armed.(ptt := UiReady) else armed
  }

  // ---------------------------------------------------------------- every run

  datatype PhoneAct =
    | Presses(now: nat) | Releases(now: nat) | Hears(kind: Kind) | Checks(t: nat) | Connection(authenticated: bool)

  function Act(p: Phone, a: PhoneAct): Phone {
    match a
    case Presses(now) => AfterPress(p, now)
    case Releases(now) => AfterRelease(p, now)
    case Hears(kind) => Answered(p, kind)
    case Checks(t) => Check(p, t)
    case Connection(b) => p.(authenticated := b)
  }

  function ActAll(p: Phone, acts: seq<PhoneAct>): Phone {
    if acts == [] then p else Act(ActAll(p, acts[..|acts| - 1]), acts[|acts| - 1])
  }

  /** What is shown never contradicts the finger: connecting or live only while pressed,
      releasing or failed only while not. */
  predicate Coherent(p: Phone) {
    && (p.ptt.UiConnecting? || p.ptt.UiLive? ==> p.pressed)
    && (p.ptt.UiReleasing? || p.ptt.UiFailed? ==> !p.pressed)
  }

  predicate Hearable(acts: seq<PhoneAct>) {
    exists i | 0 <= i < |acts| :: acts[i] == Hears(PttReady)
  }

  /** The rule the design singles out: without an acknowledgement from the PC no run, of
      whatever presses, releases, timeouts and reconnections, is ever live. */
  lemma {:induction false} LiveNeedsTheAnswer(acts: seq<PhoneAct>)
    ensures Coherent(ActAll(POWERED_ON, acts))
    ensures ActAll(POWERED_ON, acts).ptt.UiLive? ==> Hearable(acts)
  {
    if acts != [] {
      var front, last := acts[..|acts| - 1], acts[|acts| - 1];
      LiveNeedsTheAnswer(front);
      if last == Hears(PttReady) {
        assert acts[|acts| - 1] == Hears(PttReady);
      } else if Hearable(front) {
        var i :| 0 <= i < |front| && front[i] == Hears(PttReady);
        assert acts[i] == Hears(PttReady);
      }
    }
  }

  /** A release always takes the microphone away from the user interface, in any state. */
  lemma ReleaseNeverStaysLive(p: Phone, now: nat)
    ensures var q := AfterRelease(p, now);
      !q.pressed && (q.ptt.UiReady? || q.ptt.UiReleasing?) && !Answered(q, PttReady).ptt.UiLive?
  {
  }

  /** Exactly when a check gives up on arming: the press is more than the timeout old, or
      lies after the worker's clock reading, where the difference wraps. */
  lemma CheckGivesUp(p: Phone, t: nat)
    requires p.authenticated && p.ptt.UiConnecting? && t < U64 && p.pressedAt < U64 - 1500
    ensures Check(p, t).ptt.UiFailed? <==> t > p.pressedAt + 1500 || t < p.pressedAt
    ensures !Check(p, t).ptt.UiFailed? ==> Check(p, t) == p
  {
    if t < p.pressedAt {
      assert (t - p.pressedAt) % U64 == t - p.pressedAt + U64;
    } else {
      assert (t - p.pressedAt) % U64 == t - p.pressedAt;
    }
  }

  /** A press that falls between the worker's clock reading and its check is failed at once. */
  lemma PressAfterTheReading(p: Phone, t: nat)
    requires PressSends(p) && t + 1 < U64 - 1500
    ensures Check(AfterPress(p, t + 1), t).ptt.UiFailed?
  {
    CheckGivesUp(AfterPress(p, t + 1), t);
  }

  /** After a check the screen is neither stuck connecting nor stuck releasing. */
  lemma NothingOverdue(p: Phone, t: nat)
    requires p.authenticated && p.pressedAt <= t < U64 && p.releasedAt <= t
    ensures var q := Check(p, t);
      && (q.ptt.UiConnecting? ==> t - q.pressedAt <= 1500)
      && (q.ptt.UiReleasing? ==> t - q.releasedAt <= 800)
  {
    assert (t - p.pressedAt) % U64 == t - p.pressedAt;
    assert (t - p.releasedAt) % U64 == t - p.releasedAt;
  }

  /** Without a connection a press counts for nothing, a release shows ready at once, and no
      check changes anything. */
  lemma Disconnected(p: Phone, now: nat)
    requires !p.authenticated
    ensures AfterPress(p, now) == p && !PressSends(p) && Check(p, now) == p
    ensures AfterRelease(p, now).ptt.UiReady? && !AfterRelease(p, now).pressed
  {
  }

  // ---------------------------------------------------------------- what is shown, and until when

  /** What ends connecting, live or releasing: the PC's answer, or a check that finds it
      overdue, by 1500 or 800 milliseconds, or whose clock reading is older than it. */
  predicate Ends(p: Phone, a: PhoneAct) {
    match p.ptt
    case UiConnecting => a == Hears(PttReady) || a == Hears(PttStopped) || (a.Checks? && Overdue(a.t, p.pressedAt, 1500))
    case UiLive => a == Hears(PttStopped)
    case UiReleasing => a == Hears(PttStopped) || (a.Checks? && Overdue(a.t, p.releasedAt, 800))
    case _ => false
  }

  predicate Overdue(t: nat, since: nat, ms: nat) {
    t < since || t > since + ms
  }

  /** What the phone hears and its worker's checks, at times that 64 bits hold. */
  predicate Passive(acts: seq<PhoneAct>) {
    forall i | 0 <= i < |acts| :: acts[i].Hears? || (acts[i].Checks? && acts[i].t < U64)
  }

  predicate Waiting(p: Phone) {
    && p.authenticated && Coherent(p) && (p.ptt.UiConnecting? || p.ptt.UiLive? || p.ptt.UiReleasing?)
    && p.pressedAt < U64 - 1500 && p.releasedAt < U64 - 800
  }

  lemma ElapsedOverdue(t: nat, since: nat, ms: nat)
    requires t < U64 && since < U64 - ms
    ensures Elapsed(t, since) > ms <==> Overdue(t, since, ms)
  {
    if t < since {
      assert (t - since) % U64 == t - since + U64;
    } else {
      assert (t - since) % U64 == t - since;
    }
  }

  /** It lasts exactly until then: nothing else changes what is shown, and that does, to live,
      ready or failed. */
  lemma ShownUntil(p: Phone, a: PhoneAct)
    requires Waiting(p) && Passive([a])
    ensures !Ends(p, a) ==> Act(p, a) == p
    ensures Ends(p, a) ==>
      Act(p, a).ptt == if a.Hears? then (if a.kind.PttReady? then UiLive else UiReady)
                       else if p.ptt.UiConnecting? then UiFailed else UiReady
    ensures Ends(p, a) && p.ptt.UiConnecting? && a.Checks? ==> !Act(p, a).pressed
  {
    assert [a][0] == a;
    if a.Checks? {
      ElapsedOverdue(a.t, p.pressedAt, 1500);
      ElapsedOverdue(a.t, p.releasedAt, 800);
    }
  }

  lemma {:induction false} ShownThroughout(p: Phone, acts: seq<PhoneAct>)
    requires Waiting(p) && Passive(acts) && forall i | 0 <= i < |acts| :: !Ends(p, acts[i])
    ensures ActAll(p, acts) == p
  {
    if acts != [] {
      var front, last := acts[..|acts| - 1], acts[|acts| - 1];
      ShownThroughout(p, front);
      ShownUntil(p, last);
    }
  }

  /** A press that counts is connecting from its own time on, and a release of anything shown
      is releasing from its own: whatever is heard or checked in time leaves them so. */
  lemma PressAndReleaseAreTimed(p: Phone, now: nat, acts: seq<PhoneAct>)
    requires Coherent(p) && p.authenticated && Passive(acts) && now < U64 - 1500
    requires p.pressedAt < U64 - 1500 && p.releasedAt < U64 - 800
    ensures PressSends(p) && (forall i | 0 <= i < |acts| :: !Ends(AfterPress(p, now), acts[i])) ==>
      var q := ActAll(AfterPress(p, now), acts); q.ptt.UiConnecting? && q.pressed && q.pressedAt == now
    ensures !p.ptt.UiReady? && (forall i | 0 <= i < |acts| :: !Ends(AfterRelease(p, now), acts[i])) ==>
      var q := ActAll(AfterRelease(p, now), acts); q.ptt.UiReleasing? && !q.pressed && q.releasedAt == now
  {
    if PressSends(p) && forall i | 0 <= i < |acts| :: !Ends(AfterPress(p, now), acts[i]) {
      ShownThroughout(AfterPress(p, now), acts);
    }
    if !p.ptt.UiReady? && forall i | 0 <= i < |acts| :: !Ends(AfterRelease(p, now), acts[i]) {
      ShownThroughout(AfterRelease(p, now), acts);
    }
  }

  // ---------------------------------------------------------------- the class

  class PhoneRuntime {
    var authenticated: bool
    var ptt: PttState
    var pressed: bool
    var pressedAt: nat
    var releasedAt: nat

    ghost function View(): Phone
      reads this
    {
      Phone(authenticated, ptt, pressed, pressedAt, releasedAt)
    }

    constructor ()
      ensures View() == POWERED_ON
    {
      authenticated, ptt, pressed, pressedAt, releasedAt := false, UiReady, false, 0, 0;
    }

    method Press(now: nat) returns (send: Maybe<Kind>)
      modifies this
      ensures View() == AfterPress(old(View()), now)
      ensures send == if PressSends(old(View())) then Just(StartPtt) else Nothing
    {
      if !authenticated {
        return Nothing;
      }
      var was := pressed;
      pressed := true;
      if was {
        return Nothing;
      }
      pressedAt := now;
      ptt := UiConnecting;
      send := Just(StartPtt);
    }

    method Release(now: nat) returns (send: Maybe<Kind>)
      modifies this
      ensures View() == AfterRelease(old(View()), now)
      ensures send == if old(authenticated) then Just(StopPtt) else Nothing
    {
      pressed := false;
      if !authenticated {
        ptt := UiReady;
        return Nothing;
      }
      releasedAt := now;
      if ptt != UiReady {
        ptt := UiReleasing;
      }
      send := Just(StopPtt);
    }

    method OnControl(kind: Kind)
      modifies this
      ensures View() == Answered(old(View()), kind)
    {
      match kind {
        case PttReady =>
          if pressed {
            ptt := UiLive;
          }
        case PttStopped => ptt := UiReady;
        case _ =>
      }
    }

    /** The timeouts of one turn of the worker, with its clock reading. */
    method WorkerCheck(t: nat)
      modifies this
      ensures View() == Check(old(View()), t)
    {
      if authenticated {
        if ptt == UiConnecting && Elapsed(t, pressedAt) > ARM_TIMEOUT_MS {
          ptt := UiFailed;
          pressed := false;
        }
        if ptt == UiReleasing && Elapsed(t, releasedAt) > RELEASE_TIMEOUT_MS {
          ptt := UiReady;
        }
      }
    }

    method OnStateChanged(authenticated: bool)
      modifies this`authenticated
      ensures View() == old(View()).(authenticated := authenticated)
    {
      this.authenticated := authenticated;
    }
  }
}
