/** The datagram multiplexer and pairing endpoint of shared/session/src/peer_session.cpp. */
module PeerSessions {
  import opened Basics
  import opened Encoding
  import opened Pairing
  import opened PairingOffers
  import opened ReplayWindows
  import opened SecureChannels
  import opened PeerSessionModel

  class PeerSession {
    const group: Group
    const codec: Codec
    const role: Role
    const self: Bytes
    const channel: SecureChannel
    const controlReplay: ReplayWindow
    var exchange: PairingExchange?
    var book: PairingOfferBook?
    var pairingSession: Bytes
    var pairingHello: Maybe<PairingMessage>
    var pendingCode: Bytes
    var peer: Bytes
    var havePeer: bool
    var sessionKey: SessionKey
    var state: SessionState
    var rejected: nat
    var pairingFailures: nat

    /** The objects every call may touch. */
    ghost function Repr(): set<object>
      reads this
    {
      {this, channel, channel.replay, controlReplay}
      + (if exchange == null then {} else {exchange})
      + (if book == null then {} else {book})
    }

    ghost predicate Valid()
      reads Repr()
    {
      && channel.Valid()
      && controlReplay.Valid() && controlReplay.width == CONTROL_WINDOW
      && channel.replay != controlReplay
      && (exchange != null ==> exchange.group == group)
      // An authenticated session holds an initialised channel for its own key and role.
      && (state == Authenticated ==>
            channel.View().ready && channel.View().key == sessionKey
            && channel.View().direction == SendDirection(role))
    }

    ghost function View(): Session
      reads Repr()
    {
      Session(role, self, if exchange == null then Nothing else Just(exchange.View()),
              pairingSession, pendingCode, pairingHello, peer, havePeer, sessionKey,
              state, rejected, pairingFailures)
    }

    constructor (group: Group, codec: Codec, self: Bytes, role: Role)
      ensures Valid() && fresh(Repr())
      ensures View() == NewSession(role, self) && book == null
    {
      this.group, this.codec, this.self, this.role := group, codec, self, role;
      channel := new SecureChannel();
      controlReplay := new ReplayWindow(CONTROL_WINDOW);
      exchange, book := null, null;
      pairingSession, pendingCode, pairingHello := [], [], Nothing;
      peer, havePeer, sessionKey := [], false, NO_AUTH.key;
      state, rejected, pairingFailures := Idle, 0, 0;
    }

    method ArmPairing(session: Bytes, code: Bytes, book: PairingOfferBook?)
      requires Valid()
      modifies this
      ensures Valid() && View() == Arm(old(View()), session, code)
      ensures this.book == book
    {
      pairingSession := session;
      pendingCode := code;
      this.book := book;
      exchange := null;
      state := InPairing;
    }

    method BeginPairing(session: Bytes, code: Bytes, scalar: nat) returns (sent: PairingMessage)
      requires Valid()
      modifies this
      ensures Valid() && book == old(book)
      ensures (View(), sent) == Begin(group, old(View()), session, code, scalar)
    {
      pairingSession := session;
      exchange := new PairingExchange(group, role, self, session, code, scalar);
      state := InPairing;
      sent := Pair1(session, Just(Hello(self, exchange.share)));
      pairingHello := Just(sent);
    }

    method ResendPairingHello() returns (sent: Maybe<PairingMessage>)
      requires Valid()
      ensures sent == Resend(View())
    {
      if state != InPairing || pairingHello.Nothing? {
        return Nothing;
      }
      sent := pairingHello;
    }

    method EstablishChannel()
      requires Valid() && exchange != null
      modifies this`sessionKey, this`pendingCode, this`state, channel, channel.replay, controlReplay, book
      ensures Valid()
      ensures View() == Establish(old(View()), []).session
      ensures channel.View() == Fresh1(sessionKey, SendDirection(role)) && controlReplay.accepted == {}
      ensures book != null ==> book.View() == ConsumeOffer(old(book.View()), old(pairingSession))
    {
      sessionKey := exchange.sessionKey;
      StartEpoch();
      Consume();
      pendingCode := [];
      state := Authenticated;
    }

    /** A fresh channel for the session key, and a cleared control window. */
    method StartEpoch()
      requires channel.Valid() && controlReplay.Valid() && channel.replay != controlReplay
      modifies channel, channel.replay, controlReplay
      ensures channel.Valid() && controlReplay.Valid()
      ensures channel.View() == Fresh1(sessionKey, SendDirection(role)) && controlReplay.accepted == {}
    {
      channel.Init(sessionKey, if role == Initiator then PhoneToPc else PcToPhone);
      controlReplay.Reset();
    }

    /** Uses up the offer, if there is a book. */
    method Consume()
      modifies book
      ensures book != null ==> book.View() == ConsumeOffer(old(book.View()), pairingSession)
    {
      if book != null {
        book.Consume(pairingSession);
      }
    }

    /** The book's answer about an offer, if there is a book. */
    ghost function OfferFor(session: Bytes, now: nat): Maybe<OfferStatus>
      reads this, book
    {
      if book == null then Nothing else Just(CheckOffer(book.View(), session, now))
    }

    method Reject()
      requires Valid()
      modifies this`rejected
      ensures Valid() && View() == old(View()).(rejected := old(rejected) + 1)
    {
      rejected := rejected + 1;
    }

    method Fail()
      requires Valid()
      modifies this`pairingFailures, this`state
      ensures Valid() && View() == old(View()).(failures := old(pairingFailures) + 1, state := Failed)
    {
      pairingFailures := pairingFailures + 1;
      state := Failed;
    }

    /** Counts a wrong guess against the offer, if there is a book. */
    method Charge()
      requires Valid()
      modifies book
      ensures Valid() && View() == old(View())
      ensures book != null ==> book.View() == NoteFailed(old(book.View()), pairingSession)
    {
      if book != null {
        book.NoteFailedAttempt(pairingSession);
      }
    }

    method HandlePair1(session: Bytes, hello: Maybe<Hello>, now: nat, scalar: nat)
      returns (replies: seq<PairingMessage>)
      requires Valid()
      modifies this, book
      ensures Valid() && book == old(book)
      ensures var o := OnPair1(group, old(View()), session, hello, old(OfferFor(session, now)), scalar);
        && View() == o.session && replies == o.replies && !o.established
        && (book != null ==> book.View() == BookAfter(o, old(book.View()), old(pairingSession)))
    {
      if session != pairingSession {
        Reject();
        return [];
      }
      if book != null {
        var status := book.Check(session, now);
        if status != OfferStatus.Valid {
          state := Failed;
          return [PairErr];
        }
      }
      if hello.Nothing? {
        Reject();
        return [];
      }
      if exchange != null && havePeer && peer == hello.value.key {
        return [Pair2(Just(Hello(self, exchange.share)))];
      }
      replies := StartExchange(hello.value, scalar);
    }

    method StartExchange(hello: Hello, scalar: nat) returns (replies: seq<PairingMessage>)
      requires Valid()
      modifies this, book
      ensures Valid() && book == old(book)
      ensures var o := PeerSessionModel.StartExchange(group, old(View()), hello, scalar);
        && View() == o.session && replies == o.replies && !o.established
        && (book != null ==> book.View() == BookAfter(o, old(book.View()), old(pairingSession)))
    {
      var e := new PairingExchange(group, role, self, pairingSession, pendingCode, scalar);
      var err := e.OnPeer(hello.key, hello.share);
      replies := Adopt(e, err, hello);
    }

    method Adopt(e: PairingExchange, err: PairingError, hello: Hello) returns (replies: seq<PairingMessage>)
      requires Valid() && e.group == group
      modifies this, book
      ensures Valid() && book == old(book)
      ensures var o := PeerSessionModel.Adopt(old(View()), old(e.View()), err, hello);
        && View() == o.session && replies == o.replies && !o.established
        && (book != null ==> book.View() == BookAfter(o, old(book.View()), old(pairingSession)))
    {
      exchange := e;
      if err != NoError {
        Charge();
        Fail();
        return [PairErr];
      }
      peer := hello.key;
      havePeer := true;
      replies := [Pair2(Just(Hello(self, exchange.share)))];
    }

    method HandlePair2(hello: Maybe<Hello>) returns (replies: seq<PairingMessage>)
      requires Valid()
      modifies this, exchange
      ensures Valid() && exchange == old(exchange) && book == old(book)
      ensures var o := OnPair2(group, old(View()), hello);
        View() == o.session && replies == o.replies && !o.established && !o.charged
    {
      if exchange == null || hello.Nothing? {
        Reject();
        return [];
      }
      var Hello(key, share) := hello.value;
      var err := exchange.OnPeer(key, share);
      if err != NoError {
        Fail();
        return [];
      }
      peer := key;
      havePeer := true;
      var sig := exchange.AuthSignature();
      replies := [Pair3(Just(sig))];
    }

    method HandlePair3(sig: Maybe<Signature>) returns (replies: seq<PairingMessage>)
      requires Valid()
      modifies this, channel, channel.replay, controlReplay, book
      ensures Valid() && exchange == old(exchange) && book == old(book)
      ensures var o := OnPair3(old(View()), sig);
        && View() == o.session && replies == o.replies
        && (book != null ==> book.View() == BookAfter(o, old(book.View()), old(pairingSession)))
        && ChannelAfter(o.established, old(channel.View()), old(controlReplay.accepted))
    {
      if exchange == null || sig.Nothing? {
        Reject();
        return [];
      }
      var verdict := exchange.VerifyPeerAuth(sig.value);
      if verdict != NoError {
        Charge();
        Fail();
        return [PairErr];
      }
      var ours := exchange.AuthSignature();
      replies := [Pair4(Just(ours))];
      EstablishChannel();
    }

    method HandlePair4(sig: Maybe<Signature>)
      requires Valid()
      modifies this, channel, channel.replay, controlReplay, book
      ensures Valid() && exchange == old(exchange) && book == old(book)
      ensures var o := OnPair4(old(View()), sig);
        && View() == o.session && o.replies == []
        && (book != null ==> book.View() == BookAfter(o, old(book.View()), old(pairingSession)))
        && ChannelAfter(o.established, old(channel.View()), old(controlReplay.accepted))
    {
      if exchange == null || sig.Nothing? {
        Reject();
        return;
      }
      var verdict := exchange.VerifyPeerAuth(sig.value);
      if verdict != NoError {
        Fail();
        return;
      }
      EstablishChannel();
    }

    /** Establishing starts a fresh channel epoch; nothing else in pairing touches it. */
    ghost predicate ChannelAfter(established: bool, before: Channel, controls: set<nat>)
      reads this, channel, channel.replay, controlReplay
    {
      if established
      then channel.View() == Fresh1(sessionKey, SendDirection(role)) && controlReplay.accepted == {}
      else channel.View() == before && controlReplay.accepted == controls
    }

    /** Any pairing datagram, in any state. */
    method HandlePairing(m: PairingMessage, now: nat, scalar: nat) returns (replies: seq<PairingMessage>)
      requires Valid()
      modifies Repr()
      ensures Valid() && book == old(book)
      ensures var o := Handle(group, old(View()), m, old(OfferFor(if m.Pair1? then m.session else [], now)), scalar);
        && View() == o.session && replies == o.replies
        && (book != null ==> book.View() == BookAfter(o, old(book.View()), old(pairingSession)))
        && ChannelAfter(o.established, old(channel.View()), old(controlReplay.accepted))
    {
      replies := [];
      match m {
        case Pair1(session, hello) =>
          if role == Responder {
            replies := HandlePair1(session, hello, now, scalar);
          } else {
            Reject();
          }
        case Pair2(hello) =>
          if role == Initiator {
            replies := HandlePair2(hello);
          } else {
            Reject();
          }
        case Pair3(sig) =>
          if role == Responder {
            replies := HandlePair3(sig);
          } else {
            Reject();
          }
        case Pair4(sig) =>
          if role == Initiator {
            HandlePair4(sig);
          } else {
            Reject();
          }
        case PairErr =>
          Fail();
        case Unreadable =>
          Reject();
      }
    }

    /** A sealed datagram: nothing is acted on outside an authenticated session, and in one
        only what opens under its key. */
    method OnSealed(tag: Tag, packet: Packet) returns (call: Upcall)
      requires Valid()
      modifies this`rejected, channel, channel.replay, controlReplay
      ensures Valid()
      ensures call == CallFor(codec, state == Authenticated, old(channel.View()), old(controlReplay.accepted), tag, packet)
      ensures channel.View() == if state == Authenticated then AfterOpen(old(channel.View()), packet) else old(channel.View())
      ensures controlReplay.accepted == ControlsAfter(old(controlReplay.accepted), call)
      ensures rejected == old(rejected) + (if call == NoCall then 1 else 0)
    {
      if state != Authenticated {
        rejected := rejected + 1;
        return NoCall;
      }
      var opening := channel.Open(packet);
      if opening.Refused? {
        rejected := rejected + 1;
        return NoCall;
      }
      if tag == MediaTag {
        return Media(opening.plain);
      }
      if tag == ControlTag {
        var m := codec.decode(opening.plain);
        if m.Nothing? {
          rejected := rejected + 1;
          return NoCall;
        }
        var fresh1 := controlReplay.Accept(m.value.number);
        if !fresh1 {
          rejected := rejected + 1;
          return NoCall;
        }
        return Control(m.value);
      }
      rejected := rejected + 1;
      return NoCall;
    }

    method SendControl(m: ControlMessage) returns (sent: Maybe<Packet>)
      requires Valid()
      modifies channel
      ensures Valid()
      ensures channel.View() == if state == Authenticated then AfterSeal(old(channel.View())) else old(channel.View())
      ensures sent == if state == Authenticated
                      then Just(Sealed(sessionKey, SendDirection(role), old(channel.View()).next, codec.encode(m)))
                      else Nothing
    {
      if state != Authenticated {
        return Nothing;
      }
      sent := channel.Seal(codec.encode(m));
    }

    method SendMedia(payload: Bytes) returns (sent: Maybe<Packet>)
      requires Valid()
      modifies channel
      ensures Valid()
      ensures channel.View() == if state == Authenticated then AfterSeal(old(channel.View())) else old(channel.View())
      ensures sent == if state == Authenticated
                      then Just(Sealed(sessionKey, SendDirection(role), old(channel.View()).next, payload))
                      else Nothing
    {
      if state != Authenticated {
        return Nothing;
      }
      sent := channel.Seal(payload);
    }
  }
}
