/** Callbacks of an authenticated session over a network that drops, duplicates, reorders
    and forges (shared/session/src/peer_session.cpp on top of the sealed channel), within
    one channel epoch. */
module SessionDelivery {
  import opened Basics
  import opened Encoding
  import opened Pairing
  import opened PairingOffers
  import opened ReplayWindows
  import opened SecureChannels
  import opened LossyDelivery
  import opened PeerSessionModel

  /** A callback made, with the number of the datagram that caused it. */
  datatype Served = Served(counter: nat, call: Upcall)

  datatype Inbox = Inbox(link: Link, controls: set<nat>, served: seq<Served>)

  ghost function FreshInbox(key: SessionKey, d: Direction): Inbox {
    Inbox(Epoch(key, d), {}, [])
  }

  datatype Event = Sealing(plain: Bytes) | Receiving(tag: Tag, packet: Packet)

  ghost function Happen(codec: Codec, b: Inbox, e: Event): Inbox {
    match e
    case Sealing(plain) => b.(link := Make(b.link, Seal(plain)))
    case Receiving(tag, p) =>
      var call := CallFor(codec, true, b.link.receiver, b.controls, tag, p);
      Inbox(Make(b.link, Arrive(p)), ControlsAfter(b.controls, call),
            if call.NoCall? then b.served else b.served + [Served(p.counter, call)])
  }

  ghost function HappenAll(codec: Codec, b: Inbox, events: seq<Event>): Inbox {
    if events == [] then b
    else Happen(codec, HappenAll(codec, b, events[..|events| - 1]), events[|events| - 1])
  }

  ghost predicate Possible(b: Inbox, e: Event) {
    e.Receiving? ==> Feasible(b.link, Arrive(e.packet))
  }

  ghost predicate AllPossible(codec: Codec, b: Inbox, events: seq<Event>) {
    forall i | 0 <= i < |events| :: Possible(HappenAll(codec, b, events[..i]), events[i])
  }

  /** The callback is what the peer sealed under that number. */
  ghost predicate Genuine(codec: Codec, sent: seq<Bytes>, s: Served) {
    && s.counter < |sent|
    && match s.call
       case Media(plain) => plain == sent[s.counter]
       case Control(m) => codec.decode(sent[s.counter]) == Just(m)
       case NoCall => false
  }

  /** Every callback is genuine, none is made twice for one datagram, and no control
      number is ever acted on twice. */
  ghost predicate WellServed(codec: Codec, b: Inbox) {
    && (forall i | 0 <= i < |b.served| :: Genuine(codec, b.link.sent, b.served[i]))
    && (forall i, j | 0 <= i < j < |b.served| :: b.served[i].counter != b.served[j].counter)
    && (forall i, j | 0 <= i < j < |b.served| && b.served[i].call.Control? && b.served[j].call.Control? ::
          b.served[i].call.message.number != b.served[j].call.message.number)
  }

  /** Served datagrams were accepted, and acted-on control numbers recorded. */
  ghost predicate Recorded(served: seq<Served>, accepted: set<nat>, controls: set<nat>) {
    forall i | 0 <= i < |served| ::
      && served[i].counter in accepted
      && (served[i].call.Control? ==> served[i].call.message.number in controls)
  }

  ghost predicate InboxOk(codec: Codec, b: Inbox) {
    && LinkOk(b.link) && AtMostOnce(b.link)
    && WellServed(codec, b)
    && Recorded(b.served, b.link.receiver.accepted, b.controls)
  }

  /** A call to a new datagram, with a new number if it is a control call. */
  lemma ServeKeeps(codec: Codec, b: Inbox, s: Served)
    requires WellServed(codec, b) && Recorded(b.served, b.link.receiver.accepted, b.controls)
    requires Genuine(codec, b.link.sent, s) && s.counter !in b.link.receiver.accepted
    requires s.call.Control? ==> s.call.message.number !in b.controls
    ensures WellServed(codec, b.(served := b.served + [s]))
    ensures Recorded(b.served + [s], b.link.receiver.accepted + {s.counter}, ControlsAfter(b.controls, s.call))
  {
  }

  lemma ReceivingKeeps(codec: Codec, b: Inbox, tag: Tag, p: Packet)
    requires InboxOk(codec, b) && Feasible(b.link, Arrive(p))
    ensures InboxOk(codec, Happen(codec, b, Receiving(tag, p)))
  {
    MoveKeeps(b.link, Arrive(p));
    var call := CallFor(codec, true, b.link.receiver, b.controls, tag, p);
    if Opens(b.link.receiver, p) {
      var n: nat :| n < |b.link.sent| && p.body == Wire(b.link, n).body;
      assert p.counter == n && p.body.plain == b.link.sent[n];
      if !call.NoCall? {
        ServeKeeps(codec, b, Served(n, call));
      }
    }
  }

  lemma SealingKeeps(codec: Codec, b: Inbox, plain: Bytes)
    requires InboxOk(codec, b)
    ensures InboxOk(codec, Happen(codec, b, Sealing(plain)))
  {
    MoveKeeps(b.link, Seal(plain));
  }

  lemma {:induction false} EveryCallbackGenuineAndOnce(codec: Codec, key: SessionKey, d: Direction, events: seq<Event>)
    requires AllPossible(codec, FreshInbox(key, d), events)
    ensures InboxOk(codec, HappenAll(codec, FreshInbox(key, d), events))
  {
    if events != [] {
      var front, last := events[..|events| - 1], events[|events| - 1];
      forall i | 0 <= i < |front|
        ensures Possible(HappenAll(codec, FreshInbox(key, d), front[..i]), front[i])
      {
        assert front[..i] == events[..i];
      }
      EveryCallbackGenuineAndOnce(codec, key, d, front);
      var b := HappenAll(codec, FreshInbox(key, d), front);
      match last {
        case Sealing(plain) => SealingKeeps(codec, b, plain);
        case Receiving(tag, p) => ReceivingKeeps(codec, b, tag, p);
      }
    }
  }

  /** What a first arrival gets: media is handed over whenever fewer than 1024 numbers
      behind; control needs in addition that its own number is new and fewer than 512
      behind the newest control number. */
  lemma FirstArrivalServed(codec: Codec, b: Inbox, tag: Tag, n: nat)
    requires InboxOk(codec, b) && n < |b.link.sent|
    requires forall c | c in b.link.receiver.accepted :: c != n && c < n + 1024
    ensures var after := Happen(codec, b, Receiving(tag, Wire(b.link, n)));
      && (tag.MediaTag? ==> after.served == b.served + [Served(n, Media(b.link.sent[n]))])
      && (tag.ControlTag? ==> (after.served != b.served <==> NewControl(codec, b, n)))
      && (tag.ControlTag? && NewControl(codec, b, n) ==>
            after.served == b.served + [Served(n, Control(codec.decode(b.link.sent[n]).value))])
  {
    assert Opens(b.link.receiver, Wire(b.link, n));
    assert forall s :: |b.served + [s]| != |b.served|;
  }

  ghost predicate NewControl(codec: Codec, b: Inbox, n: nat)
    requires n < |b.link.sent|
  {
    var m := codec.decode(b.link.sent[n]);
    && m.Just? && m.value.number !in b.controls
    && (forall c | c in b.controls :: c < m.value.number + 512)
  }

  /** The first n control messages of an epoch, as its sender numbers them. */
  ghost function Messages(codec: Codec, n: nat): seq<Event> {
    if n == 0 then [] else Messages(codec, n - 1) + [Sealing(codec.encode(ControlMessage(OtherKind, n)))]
  }

  ghost predicate OnlySealed(codec: Codec, b: Inbox, n: nat) {
    && b.controls == {} && b.served == [] && b.link.receiver.accepted == {} && |b.link.sent| == n
    && forall i: nat | i < n :: b.link.sent[i] == codec.encode(ControlMessage(OtherKind, i + 1))
  }

  lemma PossibleSnoc(codec: Codec, b: Inbox, events: seq<Event>, e: Event)
    requires AllPossible(codec, b, events) && Possible(HappenAll(codec, b, events), e)
    ensures AllPossible(codec, b, events + [e])
    ensures HappenAll(codec, b, events + [e]) == Happen(codec, HappenAll(codec, b, events), e)
  {
    var all := events + [e];
    assert all[..|events|] == events;
    forall i | 0 <= i < |all|
      ensures Possible(HappenAll(codec, b, all[..i]), all[i])
    {
      if i < |events| {
        assert all[..i] == events[..i];
      }
    }
  }

  lemma OneMoreSealed(codec: Codec, b: Inbox, n: nat)
    requires OnlySealed(codec, b, n)
    ensures OnlySealed(codec, Happen(codec, b, Sealing(codec.encode(ControlMessage(OtherKind, n + 1)))), n + 1)
  {
  }

  lemma {:induction false} MessagesSealed(codec: Codec, key: SessionKey, d: Direction, n: nat)
    ensures AllPossible(codec, FreshInbox(key, d), Messages(codec, n))
    ensures OnlySealed(codec, HappenAll(codec, FreshInbox(key, d), Messages(codec, n)), n)
  {
    if n > 0 {
      MessagesSealed(codec, key, d, n - 1);
      var start, front := FreshInbox(key, d), Messages(codec, n - 1);
      PossibleSnoc(codec, start, front, Sealing(codec.encode(ControlMessage(OtherKind, n))));
      OneMoreSealed(codec, HappenAll(codec, start, front), n - 1);
    }
  }

  /** The two windows differ, and a reordering network shows it: when the 513th control
      message of an epoch overtakes the first, the first is refused as control although the
      channel accepts it, and as media it would have been handed over. */
  lemma OvertakenControlIsLost(codec: Codec, key: SessionKey, d: Direction) returns (events: seq<Event>)
    requires forall m :: codec.decode(codec.encode(m)) == Just(m)
    ensures AllPossible(codec, FreshInbox(key, d), events)
    ensures var b := HappenAll(codec, FreshInbox(key, d), events);
      && InboxOk(codec, b) && |b.link.sent| > 0 && Opens(b.link.receiver, Wire(b.link, 0))
      && Happen(codec, b, Receiving(ControlTag, Wire(b.link, 0))).served == b.served
      && Happen(codec, b, Receiving(MediaTag, Wire(b.link, 0))).served
         == b.served + [Served(0, Media(codec.encode(ControlMessage(OtherKind, 1))))]
  {
    var n := CONTROL_WINDOW;
    var sealed := Messages(codec, n + 1);
    MessagesSealed(codec, key, d, n + 1);
    EveryCallbackGenuineAndOnce(codec, key, d, sealed);
    var b0 := HappenAll(codec, FreshInbox(key, d), sealed);
    var newest := Receiving(ControlTag, Wire(b0.link, n));
    FirstArrivalServed(codec, b0, ControlTag, n);
    PossibleSnoc(codec, FreshInbox(key, d), sealed, newest);
    events := sealed + [newest];
    EveryCallbackGenuineAndOnce(codec, key, d, events);
    var b := Happen(codec, b0, newest);
    assert n + 1 in b.controls;
    FirstArrivalServed(codec, b, ControlTag, 0);
    FirstArrivalServed(codec, b, MediaTag, 0);
  }

  // ---------------------------------------------------------------- when the epoch ends

  /** The message carries the peer's signature of the exchange in hand. */
  predicate Proves(s: Session, m: PairingMessage) {
    && s.exchange.Just?
    && ((s.role.Responder? && m.Pair3?) || (s.role.Initiator? && m.Pair4?))
    && s.exchange.value.derived && m.sig == Just(Sig(s.exchange.value.peer, s.exchange.value.auth))
  }

  /** A pairing message starts a new epoch exactly when it carries that signature, even in
      the middle of an epoch: a copy of the message that established the channel does it
      again, under the same key. */
  lemma NewEpochIff(g: Group, s: Session, m: PairingMessage, offer: Maybe<OfferStatus>, scalar: nat,
                    laterOffer: Maybe<OfferStatus>, laterScalar: nat)
    ensures var o := Handle(g, s, m, offer, scalar);
      && (o.established <==> Proves(s, m))
      && (o.established ==>
            var again := Handle(g, o.session, m, laterOffer, laterScalar);
            again.established && again.session.key == o.session.key == s.exchange.value.Key())
  {
  }
}
