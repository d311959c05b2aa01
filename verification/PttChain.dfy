/** Push-to-talk end to end: the phone, the PC and two sealed links between them that drop,
    duplicate, reorder and refuse forgeries, within one channel epoch. */
module PttChain {
  import opened Basics
  import opened Encoding
  import opened Pairing
  import opened SecureChannels
  import opened LossyDelivery
  import opened PeerSessionModel
  import opened SessionDelivery
  import opened PhonePtt
  import opened ServicePtt
  import M = PhoneMedia
  import J = JitterBuffers
  import R = RouterModel

  /** Both ends, both directions, and what is counted: frames packed, presses that asked for
      the microphone, requests and acknowledgements handled, acknowledgements sent, and
      entries into live. */
  datatype World = World(
    phone: Phone, sender: M.Sender, service: Service,
    up: Inbox, down: Inbox, upNumber: nat, downNumber: nat, packed: nat,
    presses: nat, handled: nat, emitted: nat, answered: nat, live: nat)

  ghost function NewEpoch(phone: Phone, sender: M.Sender, service: Service, key: SessionKey): World {
    World(phone, sender, service, FreshInbox(key, PhoneToPc), FreshInbox(key, PcToPhone), 0, 0, 0, 0, 0, 0, 0, 0)
  }

  /** `Captures` is a frame from the microphone, encoded unless it has another length or fails;
      `PhoneSends` and `ServiceSends` are the messages outside push-to-talk. */
  datatype Action =
    | PhoneActs(act: PhoneAct)
    | Captures(encoded: Maybe<J.Payload>)
    | PhoneSends(kind: Kind)
    | ServiceTurn(local: R.Source, heard: R.Samples)
    | ServiceSends(kind: Kind)
    | ReachPc(tag: Tag, packet: Packet, now: nat)
    | ReachPhone(tag: Tag, packet: Packet)

  function KindOf(codec: Codec, plain: Bytes): Maybe<Kind> {
    var m := codec.decode(plain);
    if m.Just? then Just(m.value.kind) else Nothing
  }

  ghost predicate Enabled(codec: Codec, w: World, a: Action) {
    match a
    case PhoneActs(act) => !act.Hears?
    case PhoneSends(kind) => !kind.StartPtt? && !kind.PttReady?
    case ServiceSends(kind) => !kind.PttReady?
    case ReachPc(_, packet, _) => Feasible(w.up.link, Arrive(packet))
    case ReachPhone(_, packet) => Feasible(w.down.link, Arrive(packet))
    case _ => true
  }

  // ---------------------------------------------------------------- steps

  ghost function SendUp(codec: Codec, w: World, kind: Kind): World {
    var n := w.upNumber + 1;
    w.(up := Happen(codec, w.up, Sealing(codec.encode(ControlMessage(kind, n)))), upNumber := n)
  }

  ghost function SendDown(codec: Codec, w: World, kind: Kind): World {
    var n := w.downNumber + 1;
    w.(down := Happen(codec, w.down, Sealing(codec.encode(ControlMessage(kind, n)))), downNumber := n)
  }

  ghost function PhoneStep(codec: Codec, w: World, act: PhoneAct): World {
    var w1 := w.(phone := Act(w.phone, act));
    match act
    case Presses(_) =>
      if PressSends(w.phone)
      then SendUp(codec, w1, StartPtt).(presses := w.presses + 1, sender := w.sender.(marker := true)) else w1
    case Releases(_) => if w.phone.authenticated then SendUp(codec, w1, StopPtt) else w1
    case _ => w1
  }

  /** A frame is sent while pressed and connected. */
  predicate Transmits(w: World, encoded: Maybe<J.Payload>) {
    w.phone.pressed && w.phone.authenticated && encoded.Just?
  }

  ghost function CaptureStep(codec: Codec, w: World, encoded: Maybe<J.Payload>): World {
    if !Transmits(w, encoded) then w
    else
      var (sender, m) := M.PackOne(w.sender, encoded.value, J.FRAME_SAMPLES, true);
      w.(sender := sender, up := Happen(codec, w.up, Sealing(codec.pack(m))), packed := w.packed + 1)
  }

  ghost function TurnStep(codec: Codec, w: World, local: R.Source, heard: R.Samples, cfg: Setup): World {
    var w1 := w.(service := AfterTurn(w.service, local, heard, cfg));
    if Announces(w.service, cfg) then SendDown(codec, w1, PttReady).(emitted := w.emitted + 1) else w1
  }

  /** The callback the PC is called with, if any. */
  ghost function CallAt(codec: Codec, b: Inbox, tag: Tag, p: Packet): Upcall {
    CallFor(codec, true, b.link.receiver, b.controls, tag, p)
  }

  ghost function PcStep(codec: Codec, w: World, tag: Tag, p: Packet, now: nat, cfg: Setup): World {
    var w1 := w.(up := Happen(codec, w.up, Receiving(tag, p)));
    match CallAt(codec, w.up, tag, p)
    case NoCall => w1
    case Media(plain) => w1.(service := Fed(w.service, codec.unpack(plain), now, cfg))
    case Control(m) =>
      var (s, reply) := Heard(w.service, m.kind);
      var w2 := w1.(service := s, handled := w.handled + if m.kind.StartPtt? then 1 else 0);
      if reply.Just? then SendDown(codec, w2, reply.value) else w2
  }

  ghost function HearStep(codec: Codec, w: World, tag: Tag, p: Packet): World {
    var w1 := w.(down := Happen(codec, w.down, Receiving(tag, p)));
    var call := CallAt(codec, w.down, tag, p);
    if !call.Control? then w1
    else
      var ready := call.message.kind.PttReady?;
      w1.(phone := Answered(w.phone, call.message.kind),
          answered := w.answered + (if ready then 1 else 0),
          live := w.live + (if ready && w.phone.pressed then 1 else 0))
  }

  ghost function Step(codec: Codec, w: World, a: Action, cfg: Setup): World {
    match a
    case PhoneActs(act) => PhoneStep(codec, w, act)
    case Captures(encoded) => CaptureStep(codec, w, encoded)
    case PhoneSends(kind) => SendUp(codec, w, kind)
    case ServiceTurn(local, heard) => TurnStep(codec, w, local, heard, cfg)
    case ServiceSends(kind) => SendDown(codec, w, kind)
    case ReachPc(tag, p, now) => PcStep(codec, w, tag, p, now, cfg)
    case ReachPhone(tag, p) => HearStep(codec, w, tag, p)
  }

  ghost function Run(codec: Codec, w: World, actions: seq<Action>, cfg: Setup): World {
    if actions == [] then w
    else Step(codec, Run(codec, w, actions[..|actions| - 1], cfg), actions[|actions| - 1], cfg)
  }

  ghost predicate AllEnabled(codec: Codec, w: World, actions: seq<Action>, cfg: Setup) {
    forall i | 0 <= i < |actions| :: Enabled(codec, Run(codec, w, actions[..i], cfg), actions[i])
  }

  // ---------------------------------------------------------------- counting

  function SentCount(codec: Codec, sent: seq<Bytes>, kind: Kind): nat {
    if sent == [] then 0
    else
      SentCount(codec, sent[..|sent| - 1], kind)
      + (if KindOf(codec, sent[|sent| - 1]) == Just(kind) then 1 else 0)
  }

  predicate Serves(s: Served, kind: Kind) {
    s.call.Control? && s.call.message.kind == kind
  }

  function ServedCount(served: seq<Served>, kind: Kind): nat {
    if served == [] then 0
    else
      ServedCount(served[..|served| - 1], kind)
      + (if Serves(served[|served| - 1], kind) then 1 else 0)
  }

  lemma SentAppend(codec: Codec, sent: seq<Bytes>, plain: Bytes, kind: Kind)
    ensures SentCount(codec, sent + [plain], kind)
         == SentCount(codec, sent, kind) + if KindOf(codec, plain) == Just(kind) then 1 else 0
  {
    assert (sent + [plain])[..|sent|] == sent;
  }

  lemma ServedAppend(served: seq<Served>, s: Served, kind: Kind)
    ensures ServedCount(served + [s], kind) == ServedCount(served, kind) + if Serves(s, kind) then 1 else 0
  {
    assert (served + [s])[..|served|] == served;
  }

  function SentNumbers(codec: Codec, sent: seq<Bytes>, kind: Kind): set<nat> {
    set n: nat | n < |sent| && KindOf(codec, sent[n]) == Just(kind)
  }

  function ServedNumbers(served: seq<Served>, kind: Kind): set<nat> {
    set s | s in served && Serves(s, kind) :: s.counter
  }

  lemma {:induction false} SentNumbersCount(codec: Codec, sent: seq<Bytes>, kind: Kind)
    ensures |SentNumbers(codec, sent, kind)| == SentCount(codec, sent, kind)
  {
    if sent != [] {
      var front, last := sent[..|sent| - 1], sent[|sent| - 1];
      SentNumbersCount(codec, front, kind);
      SentNumbersAppend(codec, front, last, kind);
      assert sent == front + [last];
      assert |front| !in SentNumbers(codec, front, kind);
    }
  }

  lemma SentNumbersAppend(codec: Codec, front: seq<Bytes>, last: Bytes, kind: Kind)
    ensures SentNumbers(codec, front + [last], kind)
         == SentNumbers(codec, front, kind) + if KindOf(codec, last) == Just(kind) then {|front|} else {}
  {
  }

  lemma {:induction false} ServedNumbersCount(served: seq<Served>, kind: Kind)
    requires forall i, j | 0 <= i < j < |served| :: served[i].counter != served[j].counter
    ensures |ServedNumbers(served, kind)| == ServedCount(served, kind)
  {
    if served != [] {
      var front, last := served[..|served| - 1], served[|served| - 1];
      ServedNumbersCount(front, kind);
      ServedNumbersAppend(front, last, kind);
      assert served == front + [last];
      NotServedYet(served, kind);
    }
  }

  lemma NotServedYet(served: seq<Served>, kind: Kind)
    requires served != [] && forall i, j | 0 <= i < j < |served| :: served[i].counter != served[j].counter
    ensures served[|served| - 1].counter !in ServedNumbers(served[..|served| - 1], kind)
  {
    var front, last := served[..|served| - 1], served[|served| - 1];
    forall s | s in front
      ensures s.counter != last.counter
    {
      var i :| 0 <= i < |front| && front[i] == s;
      assert served[i].counter != served[|served| - 1].counter;
    }
  }

  lemma ServedNumbersAppend(front: seq<Served>, last: Served, kind: Kind)
    ensures ServedNumbers(front + [last], kind)
         == ServedNumbers(front, kind) + if Serves(last, kind) then {last.counter} else {}
  {
    assert forall s :: s in front + [last] <==> s in front || s == last;
  }

  /** At most as many callbacks of a kind as messages of that kind were sealed. */
  lemma ServedAtMostSent(codec: Codec, b: Inbox, kind: Kind)
    requires WellServed(codec, b)
    ensures ServedCount(b.served, kind) <= SentCount(codec, b.link.sent, kind)
  {
    SentNumbersCount(codec, b.link.sent, kind);
    ServedNumbersCount(b.served, kind);
    assert ServedNumbers(b.served, kind) <= SentNumbers(codec, b.link.sent, kind) by {
      forall s | s in b.served && Serves(s, kind)
        ensures s.counter in SentNumbers(codec, b.link.sent, kind)
      {
        assert Genuine(codec, b.link.sent, s);
      }
    }
    SubsetSize(ServedNumbers(b.served, kind), SentNumbers(codec, b.link.sent, kind));
  }

  // ---------------------------------------------------------------- the invariant

  /** Control text and media headers read back as themselves and never as one another. */
  ghost predicate Faithful(codec: Codec) {
    && (forall m :: codec.decode(codec.encode(m)) == Just(m))
    && (forall m :: codec.unpack(codec.encode(m)) == M.Malformed)
    && (forall m: M.Media :: m.Media? ==> codec.unpack(codec.pack(m)) == m)
    && (forall m: M.Media :: codec.decode(codec.pack(m)) == Nothing)
  }

  ghost predicate Links(codec: Codec, w: World) {
    && InboxOk(codec, w.up) && InboxOk(codec, w.down)
    && w.presses == SentCount(codec, w.up.link.sent, StartPtt)
    && w.handled == ServedCount(w.up.served, StartPtt)
    && w.emitted == SentCount(codec, w.down.link.sent, PttReady)
    && w.answered == ServedCount(w.down.served, PttReady)
  }

  /** Every request handled allows at most one acknowledgement, sent or still owed. */
  ghost predicate Ledger(w: World) {
    && w.emitted + (if Owed(w.service) then 1 else 0) <= w.handled
    && w.live <= w.answered
    && Coherent(w.phone)
  }

  lemma SealKeepsUp(codec: Codec, w: World, plain: Bytes, w': World)
    requires Links(codec, w)
    requires w'.up == Happen(codec, w.up, Sealing(plain)) && w'.down == w.down
    requires w'.presses == w.presses + (if KindOf(codec, plain) == Just(StartPtt) then 1 else 0)
    requires w'.handled == w.handled && w'.emitted == w.emitted && w'.answered == w.answered
    ensures Links(codec, w')
  {
    SealingKeeps(codec, w.up, plain);
    SentAppend(codec, w.up.link.sent, plain, StartPtt);
  }

  lemma SealKeepsDown(codec: Codec, w: World, plain: Bytes, w': World)
    requires Links(codec, w)
    requires w'.down == Happen(codec, w.down, Sealing(plain)) && w'.up == w.up
    requires w'.emitted == w.emitted + (if KindOf(codec, plain) == Just(PttReady) then 1 else 0)
    requires w'.handled == w.handled && w'.presses == w.presses && w'.answered == w.answered
    ensures Links(codec, w')
  {
    SealingKeeps(codec, w.down, plain);
    SentAppend(codec, w.down.link.sent, plain, PttReady);
  }

  lemma PhoneKeeps(codec: Codec, w: World, act: PhoneAct)
    requires Faithful(codec) && Links(codec, w) && Ledger(w) && !act.Hears?
    ensures Links(codec, PhoneStep(codec, w, act)) && Ledger(PhoneStep(codec, w, act))
  {
    var n := w.upNumber + 1;
    var w' := PhoneStep(codec, w, act);
    if act.Presses? && PressSends(w.phone) {
      SealKeepsUp(codec, w, codec.encode(ControlMessage(StartPtt, n)), w');
    } else if act.Releases? && w.phone.authenticated {
      SealKeepsUp(codec, w, codec.encode(ControlMessage(StopPtt, n)), w');
    }
  }

  /** Acknowledging uses up what was owed; `s` is the service after the turn. */
  lemma AnnounceKeeps(codec: Codec, w: World, s: Service)
    requires Faithful(codec) && Links(codec, w) && Ledger(w) && Owed(w.service) && !Owed(s)
    ensures var w' := SendDown(codec, w.(service := s), PttReady).(emitted := w.emitted + 1);
      Links(codec, w') && Ledger(w')
  {
    SealKeepsDown(codec, w, codec.encode(ControlMessage(PttReady, w.downNumber + 1)),
                  SendDown(codec, w.(service := s), PttReady).(emitted := w.emitted + 1));
  }

  lemma CaptureKeeps(codec: Codec, w: World, encoded: Maybe<J.Payload>)
    requires Faithful(codec) && Links(codec, w) && Ledger(w)
    ensures Links(codec, CaptureStep(codec, w, encoded)) && Ledger(CaptureStep(codec, w, encoded))
  {
    if Transmits(w, encoded) {
      var m := M.PackOne(w.sender, encoded.value, J.FRAME_SAMPLES, true).1;
      SealKeepsUp(codec, w, codec.pack(m), CaptureStep(codec, w, encoded));
    }
  }

  lemma SendKeepsUp(codec: Codec, w: World, kind: Kind)
    requires Faithful(codec) && Links(codec, w) && Ledger(w) && !kind.StartPtt?
    ensures Links(codec, SendUp(codec, w, kind)) && Ledger(SendUp(codec, w, kind))
  {
    SealKeepsUp(codec, w, codec.encode(ControlMessage(kind, w.upNumber + 1)), SendUp(codec, w, kind));
  }

  lemma TurnFlags(s: Service, local: R.Source, heard: R.Samples, cfg: Setup)
    ensures var t := AfterTurn(s, local, heard, cfg);
      && t.requested == s.requested && t.announced == (s.announced || Announces(s, cfg))
      && t.media.running == s.media.running
  {
  }

  /** Whatever else the turn does to the service `s`. */
  lemma TurnWith(codec: Codec, w: World, s: Service, announces: bool)
    requires Faithful(codec) && Links(codec, w) && Ledger(w) && (announces ==> Owed(w.service))
    requires s.requested == w.service.requested && s.announced == (w.service.announced || announces)
    ensures var w1 := w.(service := s);
      var w' := if announces then SendDown(codec, w1, PttReady).(emitted := w.emitted + 1) else w1;
      Links(codec, w') && Ledger(w') && (w'.emitted > w.emitted ==> announces)
  {
    if announces {
      AnnounceKeeps(codec, w, s);
    }
  }

  /** An acknowledgement goes out only while the router is arming and the phone's buffer holds
      what lasts at least the prefill. */
  lemma TurnKeeps(codec: Codec, w: World, local: R.Source, heard: R.Samples, cfg: Setup)
    requires Faithful(codec) && Links(codec, w) && Ledger(w)
    ensures var w' := TurnStep(codec, w, local, heard, cfg);
      && Links(codec, w') && Ledger(w')
      && (w'.emitted > w.emitted ==>
            w.service.router.State().PhoneArming? && SourceReady(w.service, cfg))
  {
    TurnFlags(w.service, local, heard, cfg);
    TurnWith(codec, w, AfterTurn(w.service, local, heard, cfg), Announces(w.service, cfg));
  }

  /** One datagram, and what it adds to the count of a kind. */
  lemma InboxServes(codec: Codec, b: Inbox, tag: Tag, p: Packet, kind: Kind)
    requires InboxOk(codec, b) && Feasible(b.link, Arrive(p))
    ensures var b', call := Happen(codec, b, Receiving(tag, p)), CallAt(codec, b, tag, p);
      && InboxOk(codec, b') && b'.link.sent == b.link.sent
      && ServedCount(b'.served, kind) == ServedCount(b.served, kind) + if IsOf(call, kind) then 1 else 0
  {
    ReceivingKeeps(codec, b, tag, p);
    ServeCounts(codec, b, tag, p, kind);
  }

  lemma ServeCounts(codec: Codec, b: Inbox, tag: Tag, p: Packet, kind: Kind)
    ensures ServedCount(Happen(codec, b, Receiving(tag, p)).served, kind)
         == ServedCount(b.served, kind) + if IsOf(CallAt(codec, b, tag, p), kind) then 1 else 0
  {
    var call := CallAt(codec, b, tag, p);
    if !call.NoCall? {
      ServedAppend(b.served, Served(p.counter, call), kind);
    }
  }

  predicate IsOf(call: Upcall, kind: Kind) {
    call.Control? && call.message.kind == kind
  }

  /** One datagram at the PC, before it answers. */
  lemma ServedUp(codec: Codec, w: World, tag: Tag, p: Packet, w1: World)
    requires Links(codec, w) && Feasible(w.up.link, Arrive(p))
    requires w1.up == Happen(codec, w.up, Receiving(tag, p)) && w1.down == w.down
    requires w1.handled == w.handled + if IsOf(CallAt(codec, w.up, tag, p), StartPtt) then 1 else 0
    requires w1.presses == w.presses && w1.emitted == w.emitted && w1.answered == w.answered
    ensures Links(codec, w1)
  {
    InboxServes(codec, w.up, tag, p, StartPtt);
  }

  lemma ReplyKeeps(codec: Codec, w: World, kind: Kind)
    requires Faithful(codec) && Links(codec, w) && !kind.PttReady?
    ensures Links(codec, SendDown(codec, w, kind))
  {
    SealKeepsDown(codec, w, codec.encode(ControlMessage(kind, w.downNumber + 1)), SendDown(codec, w, kind));
  }

  /** The PC after a control callback and before its reply. */
  ghost function Handled(codec: Codec, w: World, tag: Tag, p: Packet, kind: Kind): World {
    w.(up := Happen(codec, w.up, Receiving(tag, p)), service := Heard(w.service, kind).0,
       handled := w.handled + if kind.StartPtt? then 1 else 0)
  }

  lemma PcShape(codec: Codec, w: World, tag: Tag, p: Packet, now: nat, kind: Kind, cfg: Setup)
    requires var call := CallAt(codec, w.up, tag, p); call.Control? && call.message.kind == kind
    ensures PcStep(codec, w, tag, p, now, cfg) ==
      var w1, reply := Handled(codec, w, tag, p, kind), Heard(w.service, kind).1;
      if reply.Just? then SendDown(codec, w1, reply.value) else w1
  {
  }

  lemma HeardOwes(s: Service, kind: Kind)
    ensures kind.StartPtt? || (Owed(Heard(s, kind).0) ==> Owed(s))
    ensures Heard(s, kind).1 != Just(PttReady)
  {
  }

  lemma PcKeeps(codec: Codec, w: World, tag: Tag, p: Packet, now: nat, cfg: Setup)
    requires Faithful(codec) && Links(codec, w) && Ledger(w) && Feasible(w.up.link, Arrive(p))
    ensures Links(codec, PcStep(codec, w, tag, p, now, cfg)) && Ledger(PcStep(codec, w, tag, p, now, cfg))
  {
    var call := CallAt(codec, w.up, tag, p);
    if call.Control? {
      var kind := call.message.kind;
      var w1, reply := Handled(codec, w, tag, p, kind), Heard(w.service, kind).1;
      HeardOwes(w.service, kind);
      PcShape(codec, w, tag, p, now, kind, cfg);
      ServedUp(codec, w, tag, p, w1);
      if reply.Just? {
        ReplyKeeps(codec, w1, reply.value);
      }
    } else {
      ServedUp(codec, w, tag, p, PcStep(codec, w, tag, p, now, cfg));
    }
  }

  lemma HearLinks(codec: Codec, w: World, tag: Tag, p: Packet, w': World)
    requires Links(codec, w) && Feasible(w.down.link, Arrive(p))
    requires w'.down == Happen(codec, w.down, Receiving(tag, p)) && w'.up == w.up
    requires w'.answered == w.answered + if IsOf(CallAt(codec, w.down, tag, p), PttReady) then 1 else 0
    requires w'.presses == w.presses && w'.emitted == w.emitted && w'.handled == w.handled
    ensures Links(codec, w')
  {
    InboxServes(codec, w.down, tag, p, PttReady);
  }

  lemma HearKeeps(codec: Codec, w: World, tag: Tag, p: Packet)
    requires Links(codec, w) && Ledger(w) && Feasible(w.down.link, Arrive(p))
    ensures Links(codec, HearStep(codec, w, tag, p)) && Ledger(HearStep(codec, w, tag, p))
  {
    HearLinks(codec, w, tag, p, HearStep(codec, w, tag, p));
  }

  lemma StepKeeps(codec: Codec, w: World, a: Action, cfg: Setup)
    requires Faithful(codec) && Links(codec, w) && Ledger(w) && Enabled(codec, w, a)
    ensures Links(codec, Step(codec, w, a, cfg)) && Ledger(Step(codec, w, a, cfg))
  {
    match a
    case PhoneActs(act) => PhoneKeeps(codec, w, act);
    case Captures(encoded) => CaptureKeeps(codec, w, encoded);
    case PhoneSends(kind) => SendKeepsUp(codec, w, kind);
    case ServiceTurn(local, heard) => TurnKeeps(codec, w, local, heard, cfg);
    case ServiceSends(kind) => ReplyKeeps(codec, w, kind);
    case ReachPc(tag, p, now) => PcKeeps(codec, w, tag, p, now, cfg);
    case ReachPhone(tag, p) => HearKeeps(codec, w, tag, p);
  }

  lemma {:induction false} EveryRunKeeps(codec: Codec, w: World, actions: seq<Action>, cfg: Setup)
    requires Faithful(codec) && Links(codec, w) && Ledger(w) && AllEnabled(codec, w, actions, cfg)
    ensures Links(codec, Run(codec, w, actions, cfg)) && Ledger(Run(codec, w, actions, cfg))
  {
    if actions != [] {
      var front := actions[..|actions| - 1];
      forall i | 0 <= i < |front|
        ensures Enabled(codec, Run(codec, w, front[..i], cfg), front[i])
      {
        assert front[..i] == actions[..i];
      }
      EveryRunKeeps(codec, w, front, cfg);
      StepKeeps(codec, Run(codec, w, front, cfg), actions[|actions| - 1], cfg);
    }
  }

  /** The chain, after every run of a fresh epoch: entries into live, acknowledgements sent,
      requests handled and presses that counted never overtake one another. */
  lemma PttNeverOutrunsThePress(codec: Codec, phone: Phone, sender: M.Sender, service: Service, key: SessionKey,
                                actions: seq<Action>, cfg: Setup)
    requires Faithful(codec) && Coherent(phone) && !Owed(service)
    requires AllEnabled(codec, NewEpoch(phone, sender, service, key), actions, cfg)
    ensures var w := Run(codec, NewEpoch(phone, sender, service, key), actions, cfg);
      && w.live <= w.emitted <= w.handled <= w.presses
      && Coherent(w.phone)
  {
    EveryRunKeeps(codec, NewEpoch(phone, sender, service, key), actions, cfg);
    var w := Run(codec, NewEpoch(phone, sender, service, key), actions, cfg);
    ServedAtMostSent(codec, w.up, StartPtt);
    ServedAtMostSent(codec, w.down, PttReady);
  }
}
