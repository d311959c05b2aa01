/** What a peer session does with each call and datagram, on values
    (shared/session/src/peer_session.cpp).  Module PeerSessions proves the class against
    these functions; PairingAgreement and SessionDelivery prove what they promise. */
module PeerSessionModel {
  import opened Basics
  import opened Encoding
  import opened Pairing
  import opened PairingOffers
  import opened ReplayWindows
  import opened SecureChannels
  import PhoneMedia
  import SourceStates

  const CONTROL_WINDOW: nat := 512

  datatype SessionState = Idle | InPairing | Authenticated | Failed | Revoked

  datatype Hello = Hello(key: Bytes, share: Bytes)

  /** The plaintext pairing messages; a field that cannot be decoded is `Nothing`, and a
      datagram that is no such message is `Unreadable`. */
  datatype PairingMessage =
    | Pair1(session: Bytes, hello: Maybe<Hello>)
    | Pair2(hello: Maybe<Hello>)
    | Pair3(sig: Maybe<Signature>)
    | Pair4(sig: Maybe<Signature>)
    | PairErr
    | Unreadable

  datatype Session = Session(
    role: Role, self: Bytes, exchange: Maybe<Exchange>,
    session: Bytes, code: Bytes, hello: Maybe<PairingMessage>,
    peer: Bytes, havePeer: bool, key: SessionKey,
    state: SessionState, rejected: nat, failures: nat)

  function NewSession(role: Role, self: Bytes): Session {
    Session(role, self, Nothing, [], [], Nothing, [], false, NO_AUTH.key, Idle, 0, 0)
  }

  /** What handling a message leaves behind: the session, the replies sent, whether the
      channel was (re)initialised, and whether the offer book is charged an attempt. */
  datatype Outcome = Outcome(session: Session, replies: seq<PairingMessage>, established: bool, charged: bool)

  function Reject(s: Session): Outcome {
    Outcome(s.(rejected := s.rejected + 1), [], false, false)
  }

  function Fail(s: Session, replies: seq<PairingMessage>, charged: bool): Outcome {
    Outcome(s.(failures := s.failures + 1, state := Failed), replies, false, charged)
  }

  function Establish(s: Session, replies: seq<PairingMessage>): Outcome
    requires s.exchange.Just?
  {
    Outcome(s.(key := s.exchange.value.Key(), code := [], state := Authenticated), replies, true, false)
  }

  function OwnHello(s: Session): Maybe<Hello>
    requires s.exchange.Just?
  {
    Just(Hello(s.self, s.exchange.value.share))
  }

  // ---------------------------------------------------------------- calls

  function Arm(s: Session, session: Bytes, code: Bytes): Session {
    s.(session := session, code := code, exchange := Nothing, state := InPairing)
  }

  function Begin(g: Group, s: Session, session: Bytes, code: Bytes, scalar: nat): (Session, PairingMessage) {
    var e := NewExchange(g, s.role, s.self, session, code, scalar);
    var hello := Pair1(session, Just(Hello(s.self, e.share)));
    (s.(session := session, exchange := Just(e), state := InPairing, hello := Just(hello)), hello)
  }

  function Resend(s: Session): Maybe<PairingMessage> {
    if s.state != InPairing then Nothing else s.hello
  }

  // ---------------------------------------------------------------- pairing messages

  /** A new exchange with the peer that said hello. */
  function StartExchange(g: Group, s: Session, hello: Hello, scalar: nat): Outcome {
    var (e, err) := Receive(g, NewExchange(g, s.role, s.self, s.session, s.code, scalar), hello.key, hello.share);
    Adopt(s, e, err, hello)
  }

  function Adopt(s: Session, e: Exchange, err: PairingError, hello: Hello): Outcome {
    var s1 := s.(exchange := Just(e));
    if err != NoError then Fail(s1, [PairErr], true)
    else
      var s2 := s1.(peer := hello.key, havePeer := true);
      Outcome(s2, [Pair2(OwnHello(s2))], false, false)
  }

  /** PAIR1 at the responder.  `offer` is the book's answer, if there is a book. */
  function OnPair1(g: Group, s: Session, session: Bytes, hello: Maybe<Hello>,
                   offer: Maybe<OfferStatus>, scalar: nat): Outcome
  {
    if session != s.session then Reject(s)
    else if offer.Just? && offer.value != Valid then
      Outcome(s.(state := Failed), [PairErr], false, false)
    else if hello.Nothing? then Reject(s)
    else if s.exchange.Just? && s.havePeer && s.peer == hello.value.key then
      Outcome(s, [Pair2(OwnHello(s))], false, false)
    else StartExchange(g, s, hello.value, scalar)
  }

  function OnPair2(g: Group, s: Session, hello: Maybe<Hello>): Outcome {
    if s.exchange.Nothing? || hello.Nothing? then Reject(s)
    else
      var (e, err) := Receive(g, s.exchange.value, hello.value.key, hello.value.share);
      var s1 := s.(exchange := Just(e));
      if err != NoError then Fail(s1, [], false)
      else
        Outcome(s1.(peer := hello.value.key, havePeer := true), [Pair3(Just(SignatureOf(e)))], false, false)
  }

  function OnPair3(s: Session, sig: Maybe<Signature>): Outcome {
    if s.exchange.Nothing? || sig.Nothing? then Reject(s)
    else if Judge(s.exchange.value, sig.value) != NoError then Fail(s, [PairErr], true)
    else Establish(s, [Pair4(Just(SignatureOf(s.exchange.value)))])
  }

  function OnPair4(s: Session, sig: Maybe<Signature>): Outcome {
    if s.exchange.Nothing? || sig.Nothing? then Reject(s)
    else if Judge(s.exchange.value, sig.value) != NoError then Fail(s, [], false)
    else Establish(s, [])
  }

  function Handle(g: Group, s: Session, m: PairingMessage, offer: Maybe<OfferStatus>, scalar: nat): Outcome {
    match m
    case Pair1(session, hello) => if s.role.Responder? then OnPair1(g, s, session, hello, offer, scalar) else Reject(s)
    case Pair2(hello) => if s.role.Initiator? then OnPair2(g, s, hello) else Reject(s)
    case Pair3(sig) => if s.role.Responder? then OnPair3(s, sig) else Reject(s)
    case Pair4(sig) => if s.role.Initiator? then OnPair4(s, sig) else Reject(s)
    case PairErr => Fail(s, [], false)
    case Unreadable => Reject(s)
  }

  /** What handling a message for `session` does to the offer book. */
  function BookAfter(o: Outcome, b: Book, session: Bytes): Book {
    if o.established then ConsumeOffer(b, session)
    else if o.charged then NoteFailed(b, session)
    else b
  }

  // ---------------------------------------------------------------- sealed datagrams

  /** What a control message says; a mode it does not know reads as automatic. */
  datatype Kind = StartPtt | PttPreparing | PttReady | StopPtt | PttStopped | SetMode(mode: SourceStates.RoutingMode) | OtherKind

  datatype ControlMessage = ControlMessage(kind: Kind, number: nat)

  /** The codecs of control text and of media headers are parameters. */
  datatype Codec = Codec(
    encode: ControlMessage -> Bytes, decode: Bytes -> Maybe<ControlMessage>,
    pack: PhoneMedia.Media -> Bytes, unpack: Bytes -> PhoneMedia.Media)

  datatype Tag = MediaTag | ControlTag | OtherTag

  datatype Upcall = NoCall | Media(plain: Bytes) | Control(message: ControlMessage)

  function SendDirection(role: Role): Direction {
    if role.Initiator? then PhoneToPc else PcToPhone
  }

  /** The phone initiates: what it seals is labelled 1 and 11, and what the PC seals 2 and 12. */
  lemma EndsAreLabelled()
    ensures KeyLabel(SendDirection(Initiator)) == 1 && NonceLabel(SendDirection(Initiator)) == 11
    ensures KeyLabel(SendDirection(Responder)) == 2 && NonceLabel(SendDirection(Responder)) == 12
    ensures SendDirection(Responder) == Other(SendDirection(Initiator))
  {
  }

  /** The callback a sealed datagram leads to; `controls` are the control numbers already
      accepted in this epoch. */
  ghost function CallFor(codec: Codec, authenticated: bool, ch: Channel, controls: set<nat>,
                         tag: Tag, p: Packet): Upcall
  {
    if !authenticated || !Opens(ch, p) then NoCall
    else match tag
      case MediaTag => Media(p.body.plain)
      case ControlTag =>
        var m := codec.decode(p.body.plain);
        if m.Just? && Fresh(CONTROL_WINDOW, controls, m.value.number) then Control(m.value) else NoCall
      case OtherTag => NoCall
  }

  ghost function ControlsAfter(controls: set<nat>, call: Upcall): set<nat> {
    if call.Control? then controls + {call.message.number} else controls
  }
}
