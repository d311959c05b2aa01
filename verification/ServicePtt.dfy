/** The PC's side of push-to-talk: the session callbacks and the turn of the audio loop that
    acknowledges the microphone (apps/service/main.cpp), with the phone's jitter buffer. */
module ServicePtt {
  import opened Basics
  import opened PeerSessionModel
  import opened SourceStates
  import M = PhoneMedia
  import J = JitterBuffers
  import R = RouterModel
  import Runs = RouterRuns
  import Routers
  import RingBuffers

  datatype Setup = Setup(router: R.Config, jitter: J.Config)

  datatype Service = Service(requested: bool, announced: bool, router: R.Control, media: M.Source)

  /** The phone source has been started before anything arrives. */
  function Started(cfg: Setup): Service {
    Service(false, false, R.START, M.Source(true, J.NewBuffer(cfg.jitter), 0))
  }

  /** What a control message does, and what is sent back. */
  function Heard(s: Service, kind: Kind): (Service, Maybe<Kind>) {
    match kind
    case StartPtt =>
      (s.(requested := true, announced := false, router := R.Issue(s.router, R.PressPtt)), Just(PttPreparing))
    case StopPtt => (s.(requested := false, router := R.Issue(s.router, R.ReleasePtt)), Just(PttStopped))
    case SetMode(m) => (s.(router := R.Issue(s.router, R.SetMode(m))), Nothing)
    case _ => (s, Nothing)
  }

  /** Media goes to the phone source and is the phone's sign of life. */
  ghost function Fed(s: Service, m: M.Media, now: nat, cfg: Setup): Service {
    s.(media := M.OnMedia(s.media, cfg.jitter, m, now), router := R.Issue(s.router, R.NotifyHeartbeat))
  }

  /** A request stands that has not been acknowledged. */
  predicate Owed(s: Service) {
    s.requested && !s.announced
  }

  predicate SourceReady(s: Service, cfg: Setup) {
    s.media.running && J.Ready(s.media.buffer, cfg.jitter)
  }

  /** The phone is acknowledged only while arming and with decodable audio in hand. */
  predicate Announces(s: Service, cfg: Setup) {
    Owed(s) && s.router.State().PhoneArming? && SourceReady(s, cfg)
  }

  function AfterAnnouncement(s: Service, cfg: Setup): Service {
    if Announces(s, cfg) then s.(announced := true, router := R.Issue(s.router, R.NotifyReady)) else s
  }

  /** What the two sources would answer in this turn: `heard` is the phone's frame, played,
      concealed or silent, and a stopped source fails. */
  function Answers(s: Service, local: R.Source, heard: R.Samples): R.Sources {
    R.Sources(local, if s.media.running then R.Delivering(heard) else R.Failing)
  }

  /** The rest of a turn: a tick of the router, which may read the phone source. */
  function Ticked(s: Service, local: R.Source, heard: R.Samples, cfg: Setup): Service {
    var src := Answers(s, local, heard);
    s.(router := R.Tick(s.router, src, cfg.router),
       media := if s.media.running && R.ReadsPhone(R.Decided(s.router, cfg.router), src, cfg.router)
                then M.AfterRead(s.media) else s.media)
  }

  /** One turn of the audio loop: announce, then produce a frame. */
  function AfterTurn(s: Service, local: R.Source, heard: R.Samples, cfg: Setup): Service {
    Ticked(AfterAnnouncement(s, cfg), local, heard, cfg)
  }

  // ---------------------------------------------------------------- every run of the service

  datatype ServiceAct =
    | Hears(kind: Kind) | MediaArrives(m: M.Media, now: nat) | Turns(local: R.Source, heard: R.Samples)

  ghost function Serve(s: Service, act: ServiceAct, cfg: Setup): Service {
    match act
    case Hears(kind) => Heard(s, kind).0
    case MediaArrives(m, now) => Fed(s, m, now, cfg)
    case Turns(local, heard) => AfterTurn(s, local, heard, cfg)
  }

  ghost function ServeAll(cfg: Setup, acts: seq<ServiceAct>): Service {
    if acts == [] then Started(cfg) else Serve(ServeAll(cfg, acts[..|acts| - 1]), acts[|acts| - 1], cfg)
  }

  /** What can wait between turns: the acknowledgement is posted and drained in one. */
  predicate Ordinary(e: Event) {
    e.StartPtt? || e.StopPtt? || IsModeEvent(e)
  }

  predicate AllOrdinary(events: seq<Event>) {
    forall i | 0 <= i < |events| :: Ordinary(events[i])
  }

  /** Every waiting release is followed by a press. */
  predicate ReleasesUndone(events: seq<Event>) {
    forall i | 0 <= i < |events| && events[i].StopPtt? :: exists j :: i < j < |events| && events[j].StartPtt?
  }

  /** The router is settled, its queue orderly, and the phone source runs on a sound buffer. */
  ghost predicate Orderly(s: Service, cfg: Setup) {
    && Runs.Settled(s.router, cfg.router)
    && AllOrdinary(s.router.pending)
    && (s.requested ==> ReleasesUndone(s.router.pending))
    && s.media.running && J.Inv(s.media.buffer, cfg.jitter)
  }

  lemma AppendOrdinary(events: seq<Event>, e: Event)
    requires AllOrdinary(events) && Ordinary(e)
    ensures AllOrdinary(R.Posted(events, e))
    ensures e.StartPtt? || (IsModeEvent(e) && ReleasesUndone(events)) ==> ReleasesUndone(R.Posted(events, e))
  {
    var all := events + [e];
    if e.StartPtt? || (IsModeEvent(e) && ReleasesUndone(events)) {
      forall i | 0 <= i < |all| && all[i].StopPtt?
        ensures exists j :: i < j < |all| && all[j].StartPtt?
      {
        if e.StartPtt? {
          assert all[|events|].StartPtt?;
        } else {
          var j :| i < j < |events| && events[j].StartPtt?;
          assert all[j].StartPtt?;
        }
      }
      NewestUndone(all, R.EVENT_SLOTS);
    }
  }

  lemma NewestUndone(events: seq<Event>, n: nat)
    requires ReleasesUndone(events)
    ensures ReleasesUndone(RingBuffers.Newest(events, n))
  {
    var k := if |events| <= n then 0 else |events| - n;
    assert RingBuffers.Newest(events, n) == events[k..];
    forall i | 0 <= i < |events| - k && events[k..][i].StopPtt?
      ensures exists j :: i < j < |events| - k && events[k..][j].StartPtt?
    {
      assert events[k + i].StopPtt?;
      var j :| k + i < j < |events| && events[j].StartPtt?;
      assert events[k..][j - k].StartPtt?;
    }
  }

  lemma HeardKeeps(s: Service, kind: Kind, cfg: Setup)
    requires Orderly(s, cfg)
    ensures Orderly(Heard(s, kind).0, cfg)
  {
    match kind
    case StartPtt => AppendOrdinary(s.router.pending, Event.StartPtt);
    case StopPtt => AppendOrdinary(s.router.pending, Event.StopPtt);
    case SetMode(m) => AppendOrdinary(s.router.pending, R.ModeEvent(m));
    case _ =>
  }

  lemma MediaKeeps(src: M.Source, m: M.Media, now: nat, cfg: J.Config)
    requires J.Inv(src.buffer, cfg)
    ensures J.Inv(M.OnMedia(src, cfg, m, now).buffer, cfg) && M.OnMedia(src, cfg, m, now).running == src.running
  {
    if m.Media? {
      J.PushKeeps(if m.marker then J.NewBuffer(cfg) else src.buffer, cfg, m.key, m.payload, now);
    }
  }

  lemma FedKeeps(s: Service, m: M.Media, now: nat, cfg: Setup)
    requires Orderly(s, cfg)
    ensures Orderly(Fed(s, m, now, cfg), cfg)
  {
    MediaKeeps(s.media, m, now, cfg.jitter);
  }

  /** A turn leaves nothing waiting, and at most reads the phone source. */
  lemma TickedKeeps(s: Service, local: R.Source, heard: R.Samples, cfg: Setup)
    requires Runs.Settled(s.router, cfg.router) && s.media.running && J.Inv(s.media.buffer, cfg.jitter)
    ensures var t := Ticked(s, local, heard, cfg);
      && Orderly(t, cfg) && t.router.pending == []
      && t.requested == s.requested && t.announced == s.announced
  {
    Runs.TickKeeps(s.router, Answers(s, local, heard), cfg.router);
    J.PopKeeps(s.media.buffer, cfg.jitter);
  }

  lemma TurnKeepsOrder(s: Service, local: R.Source, heard: R.Samples, cfg: Setup)
    requires Orderly(s, cfg)
    ensures var t := AfterTurn(s, local, heard, cfg);
      && Orderly(t, cfg) && t.router.pending == []
      && t.requested == s.requested && t.announced == (s.announced || Announces(s, cfg))
  {
    TickedKeeps(AfterAnnouncement(s, cfg), local, heard, cfg);
  }

  lemma ServeKeeps(s: Service, act: ServiceAct, cfg: Setup)
    requires Orderly(s, cfg)
    ensures Orderly(Serve(s, act, cfg), cfg)
  {
    match act
    case Hears(kind) => HeardKeeps(s, kind, cfg);
    case MediaArrives(m, now) => FedKeeps(s, m, now, cfg);
    case Turns(local, heard) => TurnKeepsOrder(s, local, heard, cfg);
  }

  lemma StartedIsOrderly(cfg: Setup)
    ensures Orderly(Started(cfg), cfg)
  {
    Runs.EveryRunSettles([], cfg.router);
  }

  /** In every run of the service, while a request stands, each release still waiting in the
      router's queue is followed by a press. */
  lemma {:induction false} PressFollowsRelease(acts: seq<ServiceAct>, cfg: Setup)
    ensures Orderly(ServeAll(cfg, acts), cfg)
  {
    if acts == [] {
      StartedIsOrderly(cfg);
    } else {
      PressFollowsRelease(acts[..|acts| - 1], cfg);
      ServeKeeps(ServeAll(cfg, acts[..|acts| - 1]), acts[|acts| - 1], cfg);
    }
  }

  // ---------------------------------------------------------------- when it is true

  /** The events drained before the acknowledgement's own: a full queue forgets its oldest. */
  function Waiting(c: R.Control): seq<Event>
    requires |c.pending| <= R.EVENT_SLOTS
  {
    if |c.pending| == R.EVENT_SLOTS then c.pending[1..] else c.pending
  }

  /** The mode after some events. */
  function LastMode(events: seq<Event>, mode: RoutingMode): RoutingMode {
    if events == [] then mode
    else SelectedMode(events[|events| - 1], LastMode(events[..|events| - 1], mode))
  }

  /** No mode change waits, or the last one is to automatic and a press comes last of all. */
  predicate ModesUndone(events: seq<Event>) {
    || (forall i | 0 <= i < |events| :: !IsModeEvent(events[i]))
    || (LastMode(events, AutoMode).AutoMode? && events[|events| - 1].StartPtt?)
  }

  predicate PressedLast(events: seq<Event>) {
    events == [] || (events[|events| - 1].StartPtt? && LastMode(events, AutoMode).AutoMode?)
  }

  /** What an arming router makes of them. */
  lemma {:induction false} WaitingDecides(c: R.Control, events: seq<Event>, cfg: R.Config)
    requires c.machine == Machine(PhoneArming, AutoMode) && AllOrdinary(events)
    ensures var m := R.ApplyAll(c, events, cfg).machine;
      && m.mode == LastMode(events, AutoMode) && ModeAgrees(m)
      && !m.state.ErrorRecovery? && !m.state.PhoneActive?
      && (m.state.PhoneArming? <==> PressedLast(events))
  {
    if events != [] {
      var front, e := events[..|events| - 1], events[|events| - 1];
      assert events == front + [e];
      WaitingDecides(c, front, cfg);
      R.ApplyAllLast(c, front, e, cfg);
      R.ApplyEventIs(R.ApplyAll(c, front, cfg), Step(R.ApplyAll(c, front, cfg).machine, e), e, cfg);
    }
  }

  lemma {:induction false} NoModeChange(events: seq<Event>, mode: RoutingMode)
    requires forall i | 0 <= i < |events| :: !IsModeEvent(events[i])
    ensures LastMode(events, mode) == mode
  {
    if events != [] {
      NoModeChange(events[..|events| - 1], mode);
    }
  }

  lemma UndoneIffPressedLast(events: seq<Event>)
    requires AllOrdinary(events) && ReleasesUndone(events)
    ensures ModesUndone(events) <==> PressedLast(events)
  {
    if events != [] && (forall i | 0 <= i < |events| :: !IsModeEvent(events[i])) {
      NoModeChange(events, AutoMode);
      assert Ordinary(events[|events| - 1]);
    }
  }

  /** The router with the acknowledgement posted, drained up to it. */
  function Drained(c: R.Control, cfg: R.Config): R.Control
    requires |c.pending| <= R.EVENT_SLOTS
  {
    R.ApplyAll(c.(pending := [], lastHeartbeat := c.frame), Waiting(c), cfg)
  }

  lemma ReadyDrained(c: R.Control, cfg: R.Config)
    requires |c.pending| <= R.EVENT_SLOTS
    ensures R.Drain(R.Issue(c, R.NotifyReady), cfg) == R.ApplyEvent(Drained(c, cfg), PhoneReady, cfg)
  {
    R.ApplyAllLast(c.(pending := [], lastHeartbeat := c.frame), Waiting(c), PhoneReady, cfg);
    assert R.Issue(c, R.NotifyReady).pending == Waiting(c) + [PhoneReady];
  }

  lemma ReadyDecided(c: R.Control, cfg: R.Config)
    requires Runs.Settled(c, cfg)
    ensures R.Decided(R.Issue(c, R.NotifyReady), cfg).State().PhoneActive? <==>
            Drained(c, cfg).State().PhoneArming? || Drained(c, cfg).State().PhoneActive?
  {
    ReadyDrained(c, cfg);
    Runs.ApplyAllKeepsAim(c.(pending := [], lastHeartbeat := c.frame), Waiting(c), cfg);
    Runs.ApplyKeepsAim(Drained(c, cfg), PhoneReady, cfg);
  }

  /** A frame whose sources do not fail leaves arming and live to what was decided. */
  lemma TickStays(c: R.Control, src: R.Sources, cfg: R.Config)
    ensures R.Tick(c, src, cfg).State().PhoneArming? ==> R.Decided(c, cfg).State().PhoneArming?
    ensures Runs.Calm(src) ==>
              && (R.Tick(c, src, cfg).State().PhoneArming? <==> R.Decided(c, cfg).State().PhoneArming?)
              && (R.Tick(c, src, cfg).State().PhoneActive? <==> R.Decided(c, cfg).State().PhoneActive?)
  {
    var d := R.Decided(c, cfg);
    SourcesStay(d, src, cfg);
    var m := R.Mixed(c, src, cfg);
    CloseFadeStays(m.(frame := m.frame + 1), cfg);
  }

  lemma SourcesStay(d: R.Control, src: R.Sources, cfg: R.Config)
    ensures R.AfterMix(R.AfterSources(d, src, cfg)).machine == d.machine
         || (R.AfterMix(R.AfterSources(d, src, cfg)).State().ErrorRecovery? && !Runs.Calm(src))
  {
  }

  lemma CloseFadeStays(c: R.Control, cfg: R.Config)
    ensures R.CloseFade(c, cfg).State().PhoneArming? <==> c.State().PhoneArming?
    ensures R.CloseFade(c, cfg).State().PhoneActive? <==> c.State().PhoneActive?
  {
  }

  /** Going live, exactly: it was decided and no source that is read fails. */
  lemma TickLiveIff(c: R.Control, src: R.Sources, cfg: R.Config)
    requires Runs.Aimed(c, cfg)
    ensures R.Tick(c, src, cfg).State().PhoneActive? <==>
      R.Decided(c, cfg).State().PhoneActive? && !Runs.SourceFailed(R.Decided(c, cfg), src, cfg)
  {
    var d := R.Decided(c, cfg);
    Runs.DecidedKeeps(c, cfg);
    Runs.SourcesKeep(d, src, cfg);
    MixStays(R.AfterSources(d, src, cfg));
    var m := R.Mixed(c, src, cfg);
    R.TickStages(c, m, m.(frame := m.frame + 1), src, cfg);
    CloseFadeStays(m.(frame := m.frame + 1), cfg);
  }

  lemma MixStays(c: R.Control)
    ensures R.AfterMix(c).machine == c.machine
  {
  }

  /** The sources as the turn that acknowledges asks them. */
  predicate TurnFails(s: Service, local: R.Source, heard: R.Samples, cfg: Setup) {
    Runs.SourceFailed(R.Decided(R.Issue(s.router, R.NotifyReady), cfg.router), Answers(s, local, heard), cfg.router)
  }

  /** When an acknowledgement is true.  In every run of the service, in the very turn that
      sends it the router goes live on the phone exactly when no mode change is waiting or a
      later press has undone it, and no source that the turn reads fails; a waiting release
      never falsifies it. */
  lemma AnnouncementHoldsIff(acts: seq<ServiceAct>, local: R.Source, heard: R.Samples, cfg: Setup)
    requires Announces(ServeAll(cfg, acts), cfg)
    ensures var s := ServeAll(cfg, acts);
      && |s.router.pending| <= R.EVENT_SLOTS
      && (AfterTurn(s, local, heard, cfg).router.State().PhoneActive? <==>
            ModesUndone(Waiting(s.router)) && !TurnFails(s, local, heard, cfg))
  {
    PressFollowsRelease(acts, cfg);
    var s := ServeAll(cfg, acts);
    var c := s.router;
    ReadyIssued(c, cfg.router);
    TickLiveIff(R.Issue(c, R.NotifyReady), Answers(s, local, heard), cfg.router);
  }

  /** What an arming router decides once it is told that the phone is ready. */
  lemma ReadyIssued(c: R.Control, cfg: R.Config)
    requires Runs.Settled(c, cfg) && AllOrdinary(c.pending) && ReleasesUndone(c.pending) && c.State().PhoneArming?
    ensures Runs.Aimed(R.Issue(c, R.NotifyReady), cfg)
    ensures R.Decided(R.Issue(c, R.NotifyReady), cfg).State().PhoneActive? <==> ModesUndone(Waiting(c))
  {
    NewestUndone(c.pending, |Waiting(c)|);
    assert Waiting(c) == RingBuffers.Newest(c.pending, |Waiting(c)|);
    WaitingDecides(c.(pending := [], lastHeartbeat := c.frame), Waiting(c), cfg);
    UndoneIffPressedLast(Waiting(c));
    ReadyDecided(c, cfg);
  }

  /** Whenever the acknowledgement could go out with nothing waiting, a change to another
      mode than automatic that comes first falsifies it. */
  lemma ModeFalsifies(acts: seq<ServiceAct>, mode: RoutingMode, local: R.Source, heard: R.Samples, cfg: Setup)
    requires var s := ServeAll(cfg, acts); Announces(s, cfg) && s.router.pending == []
    requires !mode.AutoMode?
    ensures var s := ServeAll(cfg, acts + [Hears(SetMode(mode))]);
      Announces(s, cfg) && !AfterTurn(s, local, heard, cfg).router.State().PhoneActive?
  {
    ServeAppend(acts, Hears(SetMode(mode)), cfg);
    ModeWaits(ServeAll(cfg, acts), mode);
    AnnouncementHoldsIff(acts + [Hears(SetMode(mode))], local, heard, cfg);
  }

  /** A local microphone that fails in that turn falsifies it, whatever waits. */
  lemma FailureFalsifies(acts: seq<ServiceAct>, heard: R.Samples, cfg: Setup)
    requires Announces(ServeAll(cfg, acts), cfg)
    ensures !AfterTurn(ServeAll(cfg, acts), R.Failing, heard, cfg).router.State().PhoneActive?
  {
    PressFollowsRelease(acts, cfg);
    var s := ServeAll(cfg, acts);
    ReadyIssued(s.router, cfg.router);
    TickLiveIff(R.Issue(s.router, R.NotifyReady), Answers(s, R.Failing, heard), cfg.router);
  }

  /** From the start, with a press, a turn and the frames that readiness asks for, the
      acknowledgement goes out in the next turn; a change to mute, or a local microphone
      that fails, then makes it untrue. */
  lemma UntrueAnnouncements(local: R.Source, heard: R.Samples, cfg: Setup) returns (acts: seq<ServiceAct>)
    requires !local.Failing? && M.Fillable(cfg.jitter)
    ensures var s := ServeAll(cfg, acts);
      && Announces(s, cfg) && s.router.pending == []
      && !AfterTurn(s, R.Failing, heard, cfg).router.State().PhoneActive?
    ensures var s := ServeAll(cfg, acts + [Hears(SetMode(MuteMode))]);
      Announces(s, cfg) && !AfterTurn(s, local, heard, cfg).router.State().PhoneActive?
  {
    acts := ArmedRun(local, heard, cfg);
    FailureFalsifies(acts, heard, cfg);
    ModeFalsifies(acts, MuteMode, local, heard, cfg);
  }

  lemma ArmedRun(local: R.Source, heard: R.Samples, cfg: Setup) returns (acts: seq<ServiceAct>)
    requires !local.Failing? && M.Fillable(cfg.jitter)
    ensures var s := ServeAll(cfg, acts); Announces(s, cfg) && s.router.pending == []
  {
    acts := [];
    ServeAppend(acts, Hears(Kind.StartPtt), cfg);
    acts := acts + [Hears(Kind.StartPtt)];
    ServeAppend(acts, Turns(local, heard), cfg);
    acts := acts + [Turns(local, heard)];
    FirstPressArms(local, heard, cfg);
    M.FramesFill(ServeAll(cfg, acts).media, cfg.jitter, SENDER);
    acts := FillRun(acts, M.FramesToFill(cfg.jitter), cfg);
  }

  const SENDER: M.Sender := M.Sender(0, 0, true)

  /** Only media has come, the first k frames of a spurt. */
  ghost predicate Framed(s: Service, t: Service, k: nat, cfg: Setup) {
    && t == s.(router := t.router, media := M.SourceAfterFrames(s.media, cfg.jitter, SENDER, k))
    && t.router == s.router.(lastHeartbeat := t.router.lastHeartbeat)
  }

  lemma FramedNext(s: Service, t: Service, k: nat, cfg: Setup)
    requires Framed(s, t, k, cfg)
    ensures Framed(s, Fed(t, M.FrameAt(SENDER, k), 0, cfg), k + 1, cfg)
  {
  }

  /** Frames of one spurt handed over one after another. */
  lemma {:induction false} FillRun(before: seq<ServiceAct>, k: nat, cfg: Setup) returns (acts: seq<ServiceAct>)
    ensures Framed(ServeAll(cfg, before), ServeAll(cfg, acts), k, cfg)
  {
    acts := before;
    if k > 0 {
      acts := FillRun(before, k - 1, cfg);
      FramedNext(ServeAll(cfg, before), ServeAll(cfg, acts), k - 1, cfg);
      ServeAppend(acts, MediaArrives(M.FrameAt(SENDER, k - 1), 0), cfg);
      acts := acts + [MediaArrives(M.FrameAt(SENDER, k - 1), 0)];
    }
  }

  lemma ServeAppend(acts: seq<ServiceAct>, act: ServiceAct, cfg: Setup)
    ensures ServeAll(cfg, acts + [act]) == Serve(ServeAll(cfg, acts), act, cfg)
  {
    assert (acts + [act])[..|acts|] == acts;
  }

  /** A mode other than automatic is not undone by anything yet. */
  lemma ModeWaits(s: Service, mode: RoutingMode)
    requires s.router.pending == [] && !mode.AutoMode?
    ensures var c := Heard(s, SetMode(mode)).0.router;
      c.State() == s.router.State() && c.pending == [R.ModeEvent(mode)] && !ModesUndone(Waiting(c))
  {
    assert IsModeEvent([R.ModeEvent(mode)][0]);
  }

  /** A press that waits alone at the local microphone arms the router in its next turn. */
  lemma PressArms(s: Service, local: R.Source, heard: R.Samples, cfg: Setup)
    requires Orderly(s, cfg) && s.router.machine == Machine(LocalActive, AutoMode) && s.router.pending == []
    requires !local.Failing?
    ensures var t := AfterTurn(Heard(s, Kind.StartPtt).0, local, heard, cfg);
      && t.router.State().PhoneArming? && t.router.pending == [] && Owed(t) && Orderly(t, cfg)
  {
    var h := Heard(s, Kind.StartPtt).0;
    var c := h.router;
    HeardKeeps(s, Kind.StartPtt, cfg);
    assert c.pending == [Event.StartPtt] && [] + [Event.StartPtt] == [Event.StartPtt];
    R.ApplyAllLast(c.(pending := []), [], Event.StartPtt, cfg.router);
    TickStays(c, Answers(h, local, heard), cfg.router);
    TurnKeepsOrder(h, local, heard, cfg);
  }

  lemma FirstPressArms(local: R.Source, heard: R.Samples, cfg: Setup)
    requires !local.Failing?
    ensures var t := AfterTurn(Heard(Started(cfg), Kind.StartPtt).0, local, heard, cfg);
      t.router.State().PhoneArming? && t.router.pending == [] && Owed(t) && t.media.running
  {
    StartedIsOrderly(cfg);
    PressArms(Started(cfg), local, heard, cfg);
  }

  class PttService {
    const router: Routers.AudioRouter
    const phone: M.PhoneMediaSource
    var requested: bool
    var announced: bool

    ghost function Repr(): set<object>
      reads this, router
    {
      {this, phone, phone.buffer} + router.Repr()
    }

    ghost predicate Valid()
      reads Repr()
    {
      && this !in router.Repr() && phone !in router.Repr() && phone.buffer !in router.Repr() && router.Valid()
      && router.framesProduced == router.frame && router.armStarted <= router.frame
    }

    ghost function Setting(): Setup {
      Setup(router.cfg, phone.buffer.cfg)
    }

    ghost function View(): Service
      requires Valid()
      reads Repr()
    {
      Service(requested, announced, router.View(), phone.View())
    }

    constructor (cfg: Setup)
      ensures Valid() && fresh(Repr()) && Setting() == cfg
      ensures View() == Started(cfg)
    {
      var p := new M.PhoneMediaSource(cfg.jitter);
      p.Start();
      var r := new Routers.AudioRouter(cfg.router);
      router, phone := r, p;
      requested, announced := false, false;
    }

    method OnControl(kind: Kind) returns (reply: Maybe<Kind>)
      requires Valid()
      modifies Repr()
      ensures Valid() && (View(), reply) == Heard(old(View()), kind)
    {
      match kind {
        case StartPtt =>
          requested := true;
          announced := false;
          router.StartPtt();
          return Just(PttPreparing);
        case StopPtt =>
          requested := false;
          router.StopPtt();
          return Just(PttStopped);
        case SetMode(m) =>
          router.SetMode(m);
          return Nothing;
        case _ =>
          return Nothing;
      }
    }

    /** Media goes to the phone source and moves the router's liveness stamp. */
    method OnMedia(m: M.Media, now: nat)
      requires Valid()
      modifies Repr()
      ensures Valid() && View() == Fed(old(View()), m, now, Setting())
    {
      var _ := phone.OnMediaPayload(m, now);
      router.NotifyPhoneHeartbeat();
    }

    method AnnounceReady() returns (send: Maybe<Kind>)
      requires Valid()
      modifies Repr()
      ensures Valid() && View() == AfterAnnouncement(old(View()), Setting())
      ensures send == if Announces(old(View()), Setting()) then Just(PttReady) else Nothing
    {
      var ready := phone.IsReady();
      if requested && !announced && router.machine.state == PhoneArming && ready {
        router.NotifyPhoneReady();
        announced := true;
        return Just(PttReady);
      }
      return Nothing;
    }

    /** One router tick; `local` is what the local microphone answers, `heard` the frame the
        phone source fills in if it is read, and `decodes` its decoder's verdict. */
    method Frame(local: R.Source, heard: R.Samples, decodes: bool, sinkAccepts: bool)
      requires Valid()
      modifies Repr()
      ensures Valid() && View() == Ticked(old(View()), local, heard, Setting())
    {
      var src := R.Sources(local, if phone.running then R.Delivering(heard) else R.Failing);
      var _, phoneRead := router.Tick(src, sinkAccepts);
      if phoneRead {
        ReadPhone(decodes);
      }
    }

    /** The frame that the mixer takes from the phone source. */
    method ReadPhone(decodes: bool)
      requires Valid()
      modifies phone.buffer
      ensures Valid() && View() == old(View()).(media := phone.View())
      ensures phone.View() == if phone.running then M.AfterRead(old(phone.View())) else old(phone.View())
    {
      var _, _ := phone.Read(J.FRAME_SAMPLES, decodes);
    }

    /** One turn of the loop. */
    method Turn(local: R.Source, heard: R.Samples, decodes: bool, sinkAccepts: bool) returns (send: Maybe<Kind>)
      requires Valid()
      modifies Repr()
      ensures Valid() && View() == AfterTurn(old(View()), local, heard, Setting())
      ensures send == if Announces(old(View()), Setting()) then Just(PttReady) else Nothing
    {
      send := AnnounceReady();
      Frame(local, heard, decodes, sinkAccepts);
    }
  }
}
