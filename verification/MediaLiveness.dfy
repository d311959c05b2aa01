/** The phone as the service hears it: arriving media is what keeps it live
    (apps/service/main.cpp). */
module MediaLiveness {
  import opened PeerSessionModel
  import opened ServicePtt
  import opened RouterRuns
  import opened RouterLiveness
  import J = JitterBuffers
  import M = PhoneMedia
  import R = RouterModel

  /** Media, well formed or not, and turns in which the local microphone does not fail. */
  predicate Talking(acts: seq<ServiceAct>) {
    forall i | 0 <= i < |acts| :: acts[i].MediaArrives? || (acts[i].Turns? && !acts[i].local.Failing?)
  }

  /** Turns since media last arrived, `gap` before the first act. */
  function TurnsSince(gap: int, acts: seq<ServiceAct>): int {
    if acts == [] then gap else Since(TurnsSince(gap, acts[..|acts| - 1]), acts[|acts| - 1])
  }

  function Since(gap: int, a: ServiceAct): int {
    if a.MediaArrives? then 0 else gap + 1
  }

  /** No turn comes more than phoneLostTimeoutMs / 20 turns, one at least, after the last of
      the media. */
  predicate MediaInTime(gap: int, acts: seq<ServiceAct>, cfg: Setup) {
    forall i | 0 <= i < |acts| && acts[i].Turns? ::
      TurnsSince(gap, acts[..i]) <= WholeFrames(cfg.router.phoneLostTimeoutMs)
  }

  ghost predicate LiveService(s: Service, gap: int, cfg: Setup) {
    s.media.running && Live(s.router, gap, cfg.router)
  }

  /** One act. */
  lemma ActKeepsLive(s: Service, a: ServiceAct, gap: int, cfg: Setup)
    requires LiveService(s, gap, cfg) && (a.MediaArrives? || (a.Turns? && !a.local.Failing?))
    requires a.Turns? ==> gap <= WholeFrames(cfg.router.phoneLostTimeoutMs)
    ensures LiveService(Serve(s, a, cfg), Since(gap, a), cfg)
  {
    match a
    case MediaArrives(_, _) => BeatKeepsLive(s.router, gap, R.NotifyHeartbeat, cfg.router);
    case Turns(local, heard) => FrameOfLive(s.router, gap, Answers(s, local, heard), cfg.router);
  }

  /** The service after a run is live. */
  ghost predicate LiveAfter(acts: seq<ServiceAct>, gap: int, cfg: Setup) {
    LiveService(ServeAll(cfg, acts), gap, cfg)
  }

  lemma OneMoreAct(acts: seq<ServiceAct>, a: ServiceAct, gap: int, next: int, cfg: Setup)
    requires LiveAfter(acts, gap, cfg) && (a.MediaArrives? || (a.Turns? && !a.local.Failing?))
    requires (a.Turns? ==> gap <= WholeFrames(cfg.router.phoneLostTimeoutMs)) && next == Since(gap, a)
    ensures LiveAfter(acts + [a], next, cfg)
  {
    ServeAppend(acts, a, cfg);
    ActKeepsLive(ServeAll(cfg, acts), a, gap, cfg);
  }

  lemma FrontInTime(gap: int, acts: seq<ServiceAct>, cfg: Setup)
    requires acts != [] && Talking(acts) && MediaInTime(gap, acts, cfg)
    ensures var front := acts[..|acts| - 1];
      && Talking(front) && MediaInTime(gap, front, cfg)
      && (acts[|acts| - 1].Turns? ==> TurnsSince(gap, front) <= WholeFrames(cfg.router.phoneLostTimeoutMs))
  {
    var front := acts[..|acts| - 1];
    forall i | 0 <= i < |front| && front[i].Turns?
      ensures TurnsSince(gap, front[..i]) <= WholeFrames(cfg.router.phoneLostTimeoutMs)
    {
      assert front[..i] == acts[..i];
    }
  }

  lemma JoinLast(before: seq<ServiceAct>, acts: seq<ServiceAct>)
    ensures acts == [] ==> before + acts == before
    ensures acts != [] ==> before + acts == (before + acts[..|acts| - 1]) + [acts[|acts| - 1]]
  {
  }

  lemma {:induction false} StaysLiveAfter(before: seq<ServiceAct>, acts: seq<ServiceAct>, gap: int, cfg: Setup)
    requires LiveAfter(before, gap, cfg) && Talking(acts) && MediaInTime(gap, acts, cfg)
    ensures LiveAfter(before + acts, TurnsSince(gap, acts), cfg)
  {
    JoinLast(before, acts);
    if acts != [] {
      var front := acts[..|acts| - 1];
      FrontInTime(gap, acts, cfg);
      StaysLiveAfter(before, front, gap, cfg);
      OneMoreAct(before + front, acts[|acts| - 1], TurnsSince(gap, front), TurnsSince(gap, acts), cfg);
    }
  }

  /** A phone that is live stays live for as long as media, whatever it carries, keeps
      arriving in time. */
  lemma MediaKeepsLive(before: seq<ServiceAct>, acts: seq<ServiceAct>, gap: int, cfg: Setup)
    requires var c := ServeAll(cfg, before).router;
      c.State().PhoneActive? && c.pending == [] && gap == c.frame - c.lastHeartbeat
    requires Talking(acts) && MediaInTime(gap, acts, cfg)
    ensures ServeAll(cfg, before + acts).router.State().PhoneActive?
  {
    IsLive(before, gap, cfg);
    StaysLiveAfter(before, acts, gap, cfg);
    LiveIsActive(before + acts, TurnsSince(gap, acts), cfg);
  }

  lemma IsLive(acts: seq<ServiceAct>, gap: int, cfg: Setup)
    requires var c := ServeAll(cfg, acts).router;
      c.State().PhoneActive? && c.pending == [] && gap == c.frame - c.lastHeartbeat
    ensures LiveAfter(acts, gap, cfg)
  {
    PressFollowsRelease(acts, cfg);
  }

  lemma LiveIsActive(acts: seq<ServiceAct>, gap: int, cfg: Setup)
    requires LiveAfter(acts, gap, cfg)
    ensures ServeAll(cfg, acts).router.State().PhoneActive?
  {
  }

  /** Media before every turn. */
  function Talk(m: M.Media, local: R.Source, heard: R.Samples, n: nat): seq<ServiceAct> {
    if n == 0 then [] else Talk(m, local, heard, n - 1) + [MediaArrives(m, 0)] + [Turns(local, heard)]
  }

  lemma InTimeSnoc(gap: int, acts: seq<ServiceAct>, a: ServiceAct, cfg: Setup)
    requires MediaInTime(gap, acts, cfg)
    requires a.Turns? ==> TurnsSince(gap, acts) <= WholeFrames(cfg.router.phoneLostTimeoutMs)
    ensures MediaInTime(gap, acts + [a], cfg) && TurnsSince(gap, acts + [a]) == Since(TurnsSince(gap, acts), a)
  {
    var all := acts + [a];
    assert all[..|acts|] == acts;
    forall i | 0 <= i < |all| && all[i].Turns?
      ensures TurnsSince(gap, all[..i]) <= WholeFrames(cfg.router.phoneLostTimeoutMs)
    {
      if i < |acts| {
        assert all[..i] == acts[..i];
      }
    }
  }

  lemma MediaThenTurn(gap: int, acts: seq<ServiceAct>, m: M.Media, local: R.Source, heard: R.Samples,
                      all: seq<ServiceAct>, cfg: Setup)
    requires Talking(acts) && MediaInTime(gap, acts, cfg) && !local.Failing?
    requires all == acts + [MediaArrives(m, 0)] + [Turns(local, heard)]
    ensures Talking(all) && MediaInTime(gap, all, cfg)
  {
    InTimeSnoc(gap, acts, MediaArrives(m, 0), cfg);
    InTimeSnoc(gap, acts + [MediaArrives(m, 0)], Turns(local, heard), cfg);
  }

  lemma {:induction false} TalkIsInTime(m: M.Media, local: R.Source, heard: R.Samples, n: nat, gap: int, cfg: Setup)
    requires !local.Failing?
    ensures Talking(Talk(m, local, heard, n)) && MediaInTime(gap, Talk(m, local, heard, n), cfg)
  {
    if n > 0 {
      TalkIsInTime(m, local, heard, n - 1, gap, cfg);
      MediaThenTurn(gap, Talk(m, local, heard, n - 1), m, local, heard, Talk(m, local, heard, n), cfg);
    }
  }

  /** From the start: a press, a turn, the frames that readiness asks for and the turn that
      acknowledges make the phone live, and media before every turn keeps it so for ever. */
  lemma TalkStaysLive(m: M.Media, local: R.Source, heard: R.Samples, n: nat, cfg: Setup) returns (acts: seq<ServiceAct>)
    requires !local.Failing? && M.Fillable(cfg.jitter)
    ensures ServeAll(cfg, acts + Talk(m, local, heard, n)).router.State().PhoneActive?
  {
    var armed := ArmedRun(local, heard, cfg);
    acts := armed + [Turns(local, heard)];
    var gap := AcknowledgedIsLive(armed, local, heard, cfg);
    TalkIsInTime(m, local, heard, n, gap, cfg);
    StaysLiveAfter(acts, Talk(m, local, heard, n), gap, cfg);
    LiveIsActive(acts + Talk(m, local, heard, n), TurnsSince(gap, Talk(m, local, heard, n)), cfg);
  }

  lemma AcknowledgedIsLive(acts: seq<ServiceAct>, local: R.Source, heard: R.Samples, cfg: Setup) returns (gap: int)
    requires Announces(ServeAll(cfg, acts), cfg) && ServeAll(cfg, acts).router.pending == [] && !local.Failing?
    ensures LiveAfter(acts + [Turns(local, heard)], gap, cfg)
  {
    var s := ServeAll(cfg, acts);
    ServeAppend(acts, Turns(local, heard), cfg);
    AnnouncementHoldsIff(acts, local, heard, cfg);
    PressFollowsRelease(acts, cfg);
    CalmTurn(s, local, heard, cfg);
    TurnKeepsOrder(s, local, heard, cfg);
    var c := AfterTurn(s, local, heard, cfg).router;
    gap := c.frame - c.lastHeartbeat;
  }

  lemma CalmTurn(s: Service, local: R.Source, heard: R.Samples, cfg: Setup)
    requires s.media.running && !local.Failing?
    ensures !TurnFails(s, local, heard, cfg)
  {
  }

  // ---------------------------------------------------------------- what a live phone plays

  function ActOf(ev: M.SpurtEvent, packets: seq<M.Media>, local: R.Source, heard: R.Samples): ServiceAct
    requires ev.Arrives? ==> ev.i < |packets|
  {
    match ev
    case Arrives(i, now) => MediaArrives(packets[i], now)
    case Straggles(m, now) => MediaArrives(m, now)
    case Plays => Turns(local, heard)
  }

  function ActsOf(events: seq<M.SpurtEvent>, start: J.u32, packets: seq<M.Media>, local: R.Source, heard: R.Samples)
    : (acts: seq<ServiceAct>)
    requires M.OfSpurt(events, start, |packets|)
    ensures |acts| == |events| && forall k | 0 <= k < |events| :: acts[k] == ActOf(events[k], packets, local, heard)
  {
    seq(|events|, k requires 0 <= k < |events| => ActOf(events[k], packets, local, heard))
  }

  /** Every turn of a live phone plays one packet of the jitter buffer. */
  lemma LiveTurnReads(s: Service, local: R.Source, heard: R.Samples, gap: int, cfg: Setup)
    requires LiveService(s, gap, cfg) && !local.Failing? && gap <= WholeFrames(cfg.router.phoneLostTimeoutMs)
    ensures Serve(s, Turns(local, heard), cfg).media == M.AfterRead(s.media)
  {
    LiveDecides(s.router, gap, Answers(s, local, heard), cfg.router);
  }

  ghost function MediaAfter(acts: seq<ServiceAct>, cfg: Setup): M.Source {
    ServeAll(cfg, acts).media
  }

  lemma OneMoreRead(acts: seq<ServiceAct>, a: ServiceAct, gap: int, cfg: Setup)
    requires LiveAfter(acts, gap, cfg) && (a.MediaArrives? || (a.Turns? && !a.local.Failing?))
    requires a.Turns? ==> gap <= WholeFrames(cfg.router.phoneLostTimeoutMs)
    ensures MediaAfter(acts + [a], cfg) ==
      if a.MediaArrives? then M.OnMedia(MediaAfter(acts, cfg), cfg.jitter, a.m, a.now)
      else M.AfterRead(MediaAfter(acts, cfg))
  {
    ServeAppend(acts, a, cfg);
    if a.Turns? {
      LiveTurnReads(ServeAll(cfg, acts), a.local, a.heard, gap, cfg);
    }
  }

  /** While the phone is live the source hears exactly what arrives and plays once a turn,
      so that everything said of a spurt at the source is true of it at the service. */
  lemma {:induction false} LiveServicePlays(before: seq<ServiceAct>, gap: int, start: J.u32, packets: seq<M.Media>,
                                            events: seq<M.SpurtEvent>, local: R.Source, heard: R.Samples, cfg: Setup)
    requires var c := ServeAll(cfg, before).router;
      c.State().PhoneActive? && c.pending == [] && gap == c.frame - c.lastHeartbeat
    requires M.OfSpurt(events, start, |packets|) && !local.Failing?
    requires MediaInTime(gap, ActsOf(events, start, packets, local, heard), cfg)
    ensures ServeAll(cfg, before + ActsOf(events, start, packets, local, heard)).media
         == M.SourceAfter(ServeAll(cfg, before).media, cfg.jitter, start, packets, events)
  {
    var acts := ActsOf(events, start, packets, local, heard);
    JoinLast(before, acts);
    if events != [] {
      var rest := events[..|events| - 1];
      var front := acts[..|acts| - 1];
      assert front == ActsOf(rest, start, packets, local, heard);
      IsLive(before, gap, cfg);
      FrontInTime(gap, acts, cfg);
      StaysLiveAfter(before, front, gap, cfg);
      LiveServicePlays(before, gap, start, packets, rest, local, heard, cfg);
      OneMoreRead(before + front, acts[|acts| - 1], TurnsSince(gap, front), cfg);
    }
  }

  /** A spurt of the sender, whatever is lost, repeated or late of it: the buffer of the
      service goes through the playout in which packet p is played at position p. */
  lemma SpurtAtTheService(before: seq<ServiceAct>, gap: int, sender: M.Sender, payloads: seq<J.Payload>, samples: nat,
                          events: seq<M.SpurtEvent>, local: R.Source, heard: R.Samples, cfg: Setup)
    requires var c := ServeAll(cfg, before).router;
      c.State().PhoneActive? && c.pending == [] && gap == c.frame - c.lastHeartbeat
    requires sender.marker && 0 < |payloads| <= J.HALF && (forall i | 0 <= i < |payloads| :: payloads[i] != [])
    requires M.OfSpurt(events, sender.next, |payloads|) && |events| > 0 && events[0].Arrives? && events[0].i == 0
    requires !local.Failing?
    requires MediaInTime(gap, ActsOf(events, sender.next, M.PackAll(sender, payloads, samples), local, heard), cfg)
    ensures var acts := ActsOf(events, sender.next, M.PackAll(sender, payloads, samples), local, heard);
      var e := M.HearAll(cfg.jitter, sender.next, payloads, events).e;
      && ServeAll(cfg, before + acts).media.buffer == e.b
      && (forall j | 0 <= j < |e.plays| ::
            e.plays[j].position < |payloads| && e.plays[j].payload == payloads[e.plays[j].position])
      && (forall i, j | 0 <= i < j < |e.plays| :: e.plays[i].position < e.plays[j].position)
  {
    LiveServicePlays(before, gap, sender.next, M.PackAll(sender, payloads, samples), events, local, heard, cfg);
    M.SpurtAtTheSource(ServeAll(cfg, before).media, cfg.jitter, sender, payloads, samples, events);
    M.SpurtPlaysInOrder(cfg.jitter, sender.next, payloads, events);
  }
}
