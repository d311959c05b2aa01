/** One end of a session over all its channel epochs (shared/session/src/peer_session.cpp).
    A pairing message that proves the exchange initialises this end's channel alone and as
    often as it arrives, so the peer may have sealed any history, in any number of epochs of
    its own, under the key this end holds. */
module SessionEpochs {
  import opened Basics
  import opened Encoding
  import opened Pairing
  import opened PairingOffers
  import opened ReplayWindows
  import opened SecureChannels
  import opened PeerSessionModel
  import opened SessionDelivery

  /** A datagram somebody sealed. */
  datatype Made = Made(key: SessionKey, number: nat, plain: Bytes)

  /** This end, the callbacks made since its channel was last initialised and those before,
      what it has sealed since and before, and everything its peer has ever sealed. */
  datatype End = End(
    session: Session, channel: Channel, controls: set<nat>,
    served: seq<Served>, earlier: seq<Served>, sealed: seq<Made>, sealedBefore: seq<Made>, peer: seq<Made>)

  const NO_CHANNEL: Channel := Channel(false, NO_AUTH.key, PhoneToPc, 0, {})

  function NewEnd(role: Role, self: Bytes): End {
    End(NewSession(role, self), NO_CHANNEL, {}, [], [], [], [], [])
  }

  datatype EndAct =
    | Arms(session: Bytes, code: Bytes)
    | Begins(session: Bytes, code: Bytes, scalar: nat)
    | PairingArrives(m: PairingMessage, offer: Maybe<OfferStatus>, scalar: nat)
    | Seals(plain: Bytes)
    | PeerSeals(made: Made)
    | Arrives(tag: Tag, packet: Packet)

  function PacketOf(m: Made, d: Direction): Packet {
    Sealed(m.key, d, m.number, m.plain)
  }

  function TheirDirection(e: End): Direction {
    Other(SendDirection(e.session.role))
  }

  /** The network may deliver anything, except a box under the key in force, in the peer's
      direction, that the peer never made. */
  ghost predicate Possible(e: End, a: EndAct) {
    a.Arrives? && a.packet.Packet? && a.packet.body.Box?
      && a.packet.body.key == Subkey(KeyLabel(TheirDirection(e)), e.channel.key) ==>
      exists i :: 0 <= i < |e.peer| && a.packet.body == PacketOf(e.peer[i], TheirDirection(e)).body
  }

  /** Establishing initialises the channel, and with it the control window. */
  ghost function AfterPairing(e: End, o: Outcome): End {
    var e1 := e.(session := o.session);
    if o.established
    then e1.(channel := Fresh1(o.session.key, SendDirection(o.session.role)), controls := {},
             earlier := e.earlier + e.served, served := [],
             sealedBefore := e.sealedBefore + e.sealed, sealed := [])
    else e1
  }

  ghost function CallHere(codec: Codec, e: End, tag: Tag, p: Packet): Upcall {
    CallFor(codec, e.session.state.Authenticated?, e.channel, e.controls, tag, p)
  }

  ghost function ArriveStep(codec: Codec, e: End, tag: Tag, p: Packet): End {
    if !e.session.state.Authenticated? then e
    else
      var call := CallHere(codec, e, tag, p);
      e.(channel := AfterOpen(e.channel, p), controls := ControlsAfter(e.controls, call),
         served := if call.NoCall? then e.served else e.served + [Served(p.counter, call)])
  }

  ghost function Step(g: Group, codec: Codec, e: End, a: EndAct): End {
    match a
    case Arms(session, code) => e.(session := Arm(e.session, session, code))
    case Begins(session, code, scalar) => e.(session := Begin(g, e.session, session, code, scalar).0)
    case PairingArrives(m, offer, scalar) => AfterPairing(e, Handle(g, e.session, m, offer, scalar))
    case Seals(plain) =>
      if !e.session.state.Authenticated? then e
      else e.(channel := AfterSeal(e.channel), sealed := e.sealed + [Made(e.channel.key, e.channel.next, plain)])
    case PeerSeals(made) => e.(peer := e.peer + [made])
    case Arrives(tag, p) => ArriveStep(codec, e, tag, p)
  }

  ghost function Run(g: Group, codec: Codec, e: End, acts: seq<EndAct>): End {
    if acts == [] then e else Step(g, codec, Run(g, codec, e, acts[..|acts| - 1]), acts[|acts| - 1])
  }

  ghost predicate AllPossible(g: Group, codec: Codec, e: End, acts: seq<EndAct>) {
    forall i | 0 <= i < |acts| :: Possible(Run(g, codec, e, acts[..i]), acts[i])
  }

  // ---------------------------------------------------------------- every epoch

  /** The callback is what the peer sealed, in whichever of its epochs, under that number. */
  ghost predicate MadeByPeer(codec: Codec, e: End, s: Served) {
    exists i :: 0 <= i < |e.peer| && e.peer[i].key == e.channel.key && e.peer[i].number == s.counter
      && SaysSo(codec, e.peer[i].plain, s.call)
  }

  predicate SaysSo(codec: Codec, plain: Bytes, call: Upcall) {
    match call
    case Media(p) => p == plain
    case Control(m) => codec.decode(plain) == Just(m)
    case NoCall => false
  }

  /** Since this end's channel was last initialised: every callback is genuine, none is made
      twice for one number, and no control number is acted on twice. */
  ghost predicate WellServedHere(codec: Codec, e: End) {
    && (forall i | 0 <= i < |e.served| :: MadeByPeer(codec, e, e.served[i]))
    && (forall i, j | 0 <= i < j < |e.served| :: e.served[i].counter != e.served[j].counter)
    && (forall i, j | 0 <= i < j < |e.served| && e.served[i].call.Control? && e.served[j].call.Control? ::
          e.served[i].call.message.number != e.served[j].call.message.number)
  }

  /** What this end has sealed in the epoch is numbered from zero on under one key. */
  predicate WellSealed(e: End) {
    && e.channel.next == |e.sealed|
    && forall i | 0 <= i < |e.sealed| :: e.sealed[i].number == i && e.sealed[i].key == e.channel.key
  }

  ghost predicate EndOk(codec: Codec, e: End) {
    && WellServedHere(codec, e) && Recorded(e.served, e.channel.accepted, e.controls)
    && WellSealed(e)
    && (e.session.state.Authenticated? ==>
          e.channel.ready && e.channel.key == e.session.key && e.channel.direction == SendDirection(e.session.role))
  }

  /** Only a proof establishes, and nothing else makes the session authenticated. */
  lemma PairingShape(g: Group, s: Session, m: PairingMessage, offer: Maybe<OfferStatus>, scalar: nat)
    ensures var o := Handle(g, s, m, offer, scalar);
      && o.session.role == s.role
      && (o.established ==> o.session.state.Authenticated?)
      && (!o.established && o.session.state.Authenticated? ==> s.state.Authenticated? && o.session.key == s.key)
  {
  }

  lemma PairingKeepsEnd(g: Group, codec: Codec, e: End, m: PairingMessage, offer: Maybe<OfferStatus>, scalar: nat)
    requires EndOk(codec, e)
    ensures EndOk(codec, Step(g, codec, e, PairingArrives(m, offer, scalar)))
  {
    PairingShape(g, e.session, m, offer, scalar);
    var e' := Step(g, codec, e, PairingArrives(m, offer, scalar));
    if !Handle(g, e.session, m, offer, scalar).established {
      SamePeer(codec, e, e');
    }
  }

  lemma SamePeer(codec: Codec, e: End, e': End)
    requires WellServedHere(codec, e) && e'.served == e.served && e'.channel.key == e.channel.key && e.peer <= e'.peer
    ensures WellServedHere(codec, e')
  {
    forall i | 0 <= i < |e'.served|
      ensures MadeByPeer(codec, e', e'.served[i])
    {
      StillMade(codec, e, e', e.served[i]);
    }
  }

  lemma StillMade(codec: Codec, e: End, e': End, s: Served)
    requires MadeByPeer(codec, e, s) && e'.channel.key == e.channel.key && e.peer <= e'.peer
    ensures MadeByPeer(codec, e', s)
  {
    var k :| 0 <= k < |e.peer| && e.peer[k].key == e.channel.key && e.peer[k].number == s.counter
      && SaysSo(codec, e.peer[k].plain, s.call);
    assert e'.peer[k] == e.peer[k];
  }

  /** What opens was made by the peer under this end's key. */
  lemma OpenedWasMade(e: End, tag: Tag, p: Packet) returns (i: nat)
    requires e.channel.direction == SendDirection(e.session.role)
    requires Possible(e, Arrives(tag, p)) && Opens(e.channel, p)
    ensures i < |e.peer| && e.peer[i] == Made(e.channel.key, p.counter, p.body.plain)
  {
    var k :| 0 <= k < |e.peer| && p.body == PacketOf(e.peer[k], TheirDirection(e)).body;
    i := k;
  }

  lemma ArrivalKeepsEnd(codec: Codec, e: End, tag: Tag, p: Packet)
    requires EndOk(codec, e) && Possible(e, Arrives(tag, p)) && e.session.state.Authenticated?
    ensures EndOk(codec, ArriveStep(codec, e, tag, p))
  {
    var e', call := ArriveStep(codec, e, tag, p), CallHere(codec, e, tag, p);
    SamePeer(codec, e, e'.(served := e.served));
    if !call.NoCall? {
      var i := OpenedWasMade(e, tag, p);
      assert SaysSo(codec, e.peer[i].plain, call);
      assert MadeByPeer(codec, e', Served(p.counter, call));
      AppendServed(codec, e, e', Served(p.counter, call));
    }
  }

  lemma AppendServed(codec: Codec, e: End, e': End, s: Served)
    requires WellServedHere(codec, e) && Recorded(e.served, e.channel.accepted, e.controls)
    requires e'.served == e.served + [s] && e'.peer == e.peer && e'.channel.key == e.channel.key
    requires MadeByPeer(codec, e', s) && s.counter !in e.channel.accepted
    requires s.call.Control? ==> s.call.message.number !in e.controls
    requires e'.channel.accepted == e.channel.accepted + {s.counter} && e'.controls == ControlsAfter(e.controls, s.call)
    ensures WellServedHere(codec, e') && Recorded(e'.served, e'.channel.accepted, e'.controls)
  {
    forall i | 0 <= i < |e'.served|
      ensures MadeByPeer(codec, e', e'.served[i])
    {
      if i < |e.served| {
        StillMade(codec, e, e', e.served[i]);
      }
    }
  }

  lemma StepKeepsEnd(g: Group, codec: Codec, e: End, a: EndAct)
    requires EndOk(codec, e) && Possible(e, a)
    ensures EndOk(codec, Step(g, codec, e, a))
  {
    match a
    case PairingArrives(m, offer, scalar) => PairingKeepsEnd(g, codec, e, m, offer, scalar);
    case Arrives(tag, p) =>
      if e.session.state.Authenticated? {
        ArrivalKeepsEnd(codec, e, tag, p);
      }
    case _ => SamePeer(codec, e, Step(g, codec, e, a));
  }

  /** In every run of one end, whatever pairing messages arrive how often and whatever its
      peer seals in however many epochs: since the last initialisation of its channel every
      callback is genuine and made once; and what it seals carries each number once. */
  lemma {:induction false} EveryEpochGenuineAndOnce(g: Group, codec: Codec, role: Role, self: Bytes, acts: seq<EndAct>)
    requires AllPossible(g, codec, NewEnd(role, self), acts)
    ensures EndOk(codec, Run(g, codec, NewEnd(role, self), acts))
  {
    if acts != [] {
      var front, last := acts[..|acts| - 1], acts[|acts| - 1];
      assert front + [last] == acts;
      FrontPossible(g, codec, NewEnd(role, self), front, last);
      EveryEpochGenuineAndOnce(g, codec, role, self, front);
      StepKeepsEnd(g, codec, Run(g, codec, NewEnd(role, self), front), last);
    }
  }

  lemma FrontPossible(g: Group, codec: Codec, e: End, front: seq<EndAct>, a: EndAct)
    requires AllPossible(g, codec, e, front + [a])
    ensures AllPossible(g, codec, e, front) && Possible(Run(g, codec, e, front), a)
    ensures Run(g, codec, e, front + [a]) == Step(g, codec, Run(g, codec, e, front), a)
  {
    var all := front + [a];
    assert all[..|front|] == front;
    forall i | 0 <= i < |front|
      ensures Possible(Run(g, codec, e, front[..i]), front[i])
    {
      assert all[..i] == front[..i];
    }
  }

  // ---------------------------------------------------------------- what is served

  /** When a datagram of any of the peer's epochs is served: exactly when it was sealed under
      the key in force and its number is fresh in the window, which knows nothing of the
      peer's epochs; a control message also needs a fresh number of its own. */
  lemma ServedIff(codec: Codec, e: End, tag: Tag, i: nat)
    requires EndOk(codec, e) && e.session.state.Authenticated? && i < |e.peer|
    ensures var m := e.peer[i];
      var e' := ArriveStep(codec, e, tag, PacketOf(m, TheirDirection(e)));
      var open := m.key == e.channel.key && Fresh(1024, e.channel.accepted, m.number);
      && (tag.MediaTag? ==>
            e'.served == if open then e.served + [Served(m.number, Media(m.plain))] else e.served)
      && (tag.ControlTag? ==>
            e'.served ==
              var said := codec.decode(m.plain);
              if open && said.Just? && Fresh(512, e.controls, said.value.number)
              then e.served + [Served(m.number, Control(said.value))] else e.served)
  {
    assert Opens(e.channel, PacketOf(e.peer[i], TheirDirection(e))) <==>
      e.peer[i].key == e.channel.key && Fresh(WINDOW, e.channel.accepted, e.peer[i].number);
  }

  /** So a peer that starts again, heard up to number k before, is not heard until it has
      sealed k datagrams more. */
  lemma RestartedPeerWaits(codec: Codec, e: End, k: nat, i: nat)
    requires EndOk(codec, e) && e.session.state.Authenticated?
    requires forall n: nat :: n in e.channel.accepted <==> n < k
    requires i < |e.peer| && e.peer[i].key == e.channel.key
    ensures var e' := ArriveStep(codec, e, MediaTag, PacketOf(e.peer[i], TheirDirection(e)));
      e'.served != e.served <==> e.peer[i].number >= k
  {
    ServedIff(codec, e, MediaTag, i);
    var n := e.peer[i].number;
    assert |e.served + [Served(n, Media(e.peer[i].plain))]| != |e.served|;
  }

  /** The network may send an end its own datagrams back, of any epoch and under any key, and
      they change nothing. */
  lemma ReflectedIsIgnored(codec: Codec, e: End, tag: Tag, made: Made)
    requires EndOk(codec, e) && e.session.state.Authenticated?
    ensures var p := PacketOf(made, SendDirection(e.session.role));
      Possible(e, Arrives(tag, p)) && ArriveStep(codec, e, tag, p) == e
  {
    OwnIsRefused(e.channel, made.key, made.number, made.plain);
  }

  // ---------------------------------------------------------------- two runs across epochs

  lemma RunSnoc(g: Group, codec: Codec, e: End, acts: seq<EndAct>, a: EndAct)
    requires AllPossible(g, codec, e, acts) && Possible(Run(g, codec, e, acts), a)
    ensures AllPossible(g, codec, e, acts + [a])
    ensures Run(g, codec, e, acts + [a]) == Step(g, codec, Run(g, codec, e, acts), a)
  {
    var all := acts + [a];
    assert all[..|acts|] == acts;
    forall i | 0 <= i < |all|
      ensures Possible(Run(g, codec, e, all[..i]), all[i])
    {
      if i < |acts| {
        assert all[..i] == acts[..i];
      }
    }
  }

  /** The session of a responder that was armed and then greeted. */
  lemma ArmedAndGreeted(g: Group, self: Bytes, session: Bytes, code: Bytes, hello: Hello, scalar: nat)
    requires g.Lawful() && g.Usable(hello.share)
    ensures var o := Handle(g, Arm(NewSession(Responder, self), session, code), Pair1(session, Just(hello)), Nothing, scalar);
      && !o.established && o.session.role.Responder?
      && o.session.exchange.Just? && o.session.exchange.value.derived && o.session.exchange.value.peer == hello.key
  {
    var e0 := NewExchange(g, Responder, self, session, code, scalar);
    assert g.Usable(e0.generator) && e0.Sound(g);
    ReceiveSound(g, e0, hello.key, hello.share);
  }

  /** Of an initiator that began and was answered. */
  lemma BegunAndAnswered(g: Group, self: Bytes, session: Bytes, code: Bytes, hello: Hello, scalar: nat)
    requires g.Lawful() && g.Usable(hello.share)
    ensures var o := Handle(g, Begin(g, NewSession(Initiator, self), session, code, scalar).0, Pair2(Just(hello)), Nothing, 0);
      && !o.established && o.session.role.Initiator?
      && o.session.exchange.Just? && o.session.exchange.value.derived && o.session.exchange.value.peer == hello.key
  {
    var e0 := NewExchange(g, Initiator, self, session, code, scalar);
    assert g.Usable(e0.generator) && e0.Sound(g);
    ReceiveSound(g, e0, hello.key, hello.share);
  }

  /** Two actions, given what each leaves. */
  lemma RunTwo(g: Group, codec: Codec, start: End, acts: seq<EndAct>, a: EndAct, b: EndAct, e1: End, e2: End)
    requires AllPossible(g, codec, start, acts) && Possible(Run(g, codec, start, acts), a) && Possible(e1, b)
    requires e1 == Step(g, codec, Run(g, codec, start, acts), a) && e2 == Step(g, codec, e1, b)
    ensures AllPossible(g, codec, start, acts + [a] + [b]) && Run(g, codec, start, acts + [a] + [b]) == e2
  {
    RunSnoc(g, codec, start, acts, a);
    RunSnoc(g, codec, start, acts + [a], b);
  }

  /** The proof that a session with a derived exchange waits for. */
  function ProofFor(s: Session): PairingMessage
    requires s.exchange.Just?
  {
    var sig := Just(Sig(s.exchange.value.peer, s.exchange.value.auth));
    if s.role.Responder? then Pair3(sig) else Pair4(sig)
  }

  /** A responder armed and greeted holds an exchange that the right PAIR3 proves. */
  lemma GreetedRun(g: Group, codec: Codec, self: Bytes, session: Bytes, code: Bytes, hello: Hello, scalar: nat)
      returns (acts: seq<EndAct>)
    requires g.Lawful() && g.Usable(hello.share)
    ensures AllPossible(g, codec, NewEnd(Responder, self), acts)
    ensures var e := Run(g, codec, NewEnd(Responder, self), acts);
      && e == NewEnd(Responder, self).(session := e.session)
      && e.session.role.Responder? && e.session.exchange.Just? && Proves(e.session, ProofFor(e.session))
  {
    var start, arm := NewEnd(Responder, self), Arms(session, code);
    var greet := PairingArrives(Pair1(session, Just(hello)), Nothing, scalar);
    ArmedAndGreeted(g, self, session, code, hello, scalar);
    var e1 := start.(session := Arm(start.session, session, code));
    var e2 := start.(session := Handle(g, e1.session, greet.m, Nothing, scalar).session);
    RunTwo(g, codec, start, [], arm, greet, e1, e2);
    acts := [] + [arm] + [greet];
  }

  /** An initiator that has begun and heard PAIR2 holds one that the right PAIR4 proves. */
  lemma AnsweredRun(g: Group, codec: Codec, self: Bytes, session: Bytes, code: Bytes, hello: Hello, scalar: nat)
      returns (acts: seq<EndAct>)
    requires g.Lawful() && g.Usable(hello.share)
    ensures AllPossible(g, codec, NewEnd(Initiator, self), acts)
    ensures var e := Run(g, codec, NewEnd(Initiator, self), acts);
      && e == NewEnd(Initiator, self).(session := e.session)
      && e.session.role.Initiator? && e.session.exchange.Just? && Proves(e.session, ProofFor(e.session))
  {
    var start, begin := NewEnd(Initiator, self), Begins(session, code, scalar);
    var answer := PairingArrives(Pair2(Just(hello)), Nothing, 0);
    BegunAndAnswered(g, self, session, code, hello, scalar);
    var e1 := start.(session := Begin(g, start.session, session, code, scalar).0);
    var e2 := start.(session := Handle(g, e1.session, answer.m, Nothing, 0).session);
    RunTwo(g, codec, start, [], begin, answer, e1, e2);
    acts := [] + [begin] + [answer];
  }

  /** The end after a proof. */
  ghost function Established(e: End): End
    requires e.session.exchange.Just?
  {
    var key := e.session.exchange.value.Key();
    e.(session := e.session.(key := key, code := [], state := Authenticated),
       channel := Fresh1(key, SendDirection(e.session.role)), controls := {},
       earlier := e.earlier + e.served, served := [],
       sealedBefore := e.sealedBefore + e.sealed, sealed := [])
  }

  lemma ProofEstablishes(g: Group, codec: Codec, e: End, proof: PairingMessage)
    requires Proves(e.session, proof)
    ensures Step(g, codec, e, PairingArrives(proof, Nothing, 0)) == Established(e)
  {
  }

  /** A proof and a datagram numbered zero, which is served. */
  lemma ServedAfresh(g: Group, codec: Codec, start: End, acts: seq<EndAct>, proof: PairingMessage, made: Made)
      returns (more: seq<EndAct>)
    requires AllPossible(g, codec, start, acts) && Proves(Run(g, codec, start, acts).session, proof)
    requires var e := Run(g, codec, start, acts);
      made in e.peer && made.number == 0 && made.key == e.session.exchange.value.Key()
    ensures AllPossible(g, codec, start, more)
    ensures var e, e' := Run(g, codec, start, acts), Run(g, codec, start, more);
      && e'.earlier == e.earlier + e.served && e'.served == [Served(0, Media(made.plain))] && e'.peer == e.peer
      && e'.session.exchange == e.session.exchange && Proves(e'.session, proof)
  {
    var e := Run(g, codec, start, acts);
    var again, arrival := PairingArrives(proof, Nothing, 0), Arrives(MediaTag, PacketOf(made, TheirDirection(e)));
    var e1 := Established(e);
    ProofEstablishes(g, codec, e, proof);
    FirstServed(codec, e1, made);
    MadeCanArrive(e1, made);
    RunTwo(g, codec, start, acts, again, arrival, e1, ArriveStep(codec, e1, MediaTag, arrival.packet));
    more := acts + [again] + [arrival];
  }

  lemma MadeCanArrive(e: End, made: Made)
    requires made in e.peer
    ensures Possible(e, Arrives(MediaTag, PacketOf(made, TheirDirection(e))))
  {
    var i :| 0 <= i < |e.peer| && e.peer[i] == made;
  }

  /** In a fresh epoch number zero is served. */
  lemma FirstServed(codec: Codec, e: End, made: Made)
    requires e.session.state.Authenticated? && made.number == 0
    requires e.channel == Fresh1(made.key, SendDirection(e.session.role)) && e.controls == {}
    ensures var e' := ArriveStep(codec, e, MediaTag, PacketOf(made, TheirDirection(e)));
      && e'.served == e.served + [Served(0, Media(made.plain))]
      && e' == e.(channel := e'.channel, served := e'.served) && e'.controls == {}
  {
    assert Opens(e.channel, PacketOf(made, TheirDirection(e)));
  }

  /** A copy of the PAIR3 that established the channel lets a datagram be delivered twice. */
  lemma CopiedProofDeliversAgain(g: Group, codec: Codec, self: Bytes, session: Bytes, code: Bytes,
                                 hello: Hello, scalar: nat, plain: Bytes) returns (acts: seq<EndAct>)
    requires g.Lawful() && g.Usable(hello.share)
    ensures AllPossible(g, codec, NewEnd(Responder, self), acts)
    ensures var e := Run(g, codec, NewEnd(Responder, self), acts);
      && |e.peer| == 1
      && e.earlier == [Served(0, Media(plain))] && e.served == [Served(0, Media(plain))]
  {
    var start := NewEnd(Responder, self);
    acts := GreetedRun(g, codec, self, session, code, hello, scalar);
    var e := Run(g, codec, start, acts);
    var proof, made := ProofFor(e.session), Made(e.session.exchange.value.Key(), 0, plain);
    RunSnoc(g, codec, start, acts, PeerSeals(made));
    acts := acts + [PeerSeals(made)];
    acts := ServedAfresh(g, codec, start, acts, proof, made);
    acts := ServedAfresh(g, codec, start, acts, proof, made);
  }

  /** A proof and a seal, which is numbered zero. */
  lemma SealedAfresh(g: Group, codec: Codec, start: End, acts: seq<EndAct>, proof: PairingMessage, plain: Bytes)
      returns (more: seq<EndAct>)
    requires AllPossible(g, codec, start, acts) && Proves(Run(g, codec, start, acts).session, proof)
    ensures AllPossible(g, codec, start, more)
    ensures var e, e' := Run(g, codec, start, acts), Run(g, codec, start, more);
      && e'.channel.key == e.session.exchange.value.Key()
      && e'.sealedBefore == e.sealedBefore + e.sealed && e'.sealed == [Made(e'.channel.key, 0, plain)]
      && e'.session.exchange == e.session.exchange && Proves(e'.session, proof)
  {
    var e, again := Run(g, codec, start, acts), PairingArrives(proof, Nothing, 0);
    var e1 := Established(e);
    ProofEstablishes(g, codec, e, proof);
    var e2 := e1.(channel := AfterSeal(e1.channel), sealed := [Made(e1.channel.key, 0, plain)]);
    RunTwo(g, codec, start, acts, again, Seals(plain), e1, e2);
    more := acts + [again] + [Seals(plain)];
  }

  /** A copy of the PAIR4 makes the initiator seal two plaintexts under one key and one
      number; within an epoch it never does. */
  lemma CopiedProofReusesNumber(g: Group, codec: Codec, self: Bytes, session: Bytes, code: Bytes,
                                hello: Hello, scalar: nat, a: Bytes, b: Bytes) returns (acts: seq<EndAct>)
    requires g.Lawful() && g.Usable(hello.share)
    ensures AllPossible(g, codec, NewEnd(Initiator, self), acts)
    ensures var e := Run(g, codec, NewEnd(Initiator, self), acts);
      e.sealedBefore == [Made(e.channel.key, 0, a)] && e.sealed == [Made(e.channel.key, 0, b)]
  {
    var start := NewEnd(Initiator, self);
    acts := AnsweredRun(g, codec, self, session, code, hello, scalar);
    var proof := ProofFor(Run(g, codec, start, acts).session);
    acts := SealedAfresh(g, codec, start, acts, proof, a);
    acts := SealedAfresh(g, codec, start, acts, proof, b);
  }
}
