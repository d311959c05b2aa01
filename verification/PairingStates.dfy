/** The states of a pairing session, message by message
    (shared/session/src/peer_session.cpp): what authenticates it, what ends that, and what is
    charged, counted or ignored. */
module PairingStates {
  import opened Basics
  import opened Encoding
  import opened Pairing
  import opened PairingOffers
  import opened PeerSessionModel

  /** A signature for the exchange in hand, from the side that sends one to this role. */
  predicate Signs(s: Session, m: PairingMessage, right: bool) {
    && s.exchange.Just?
    && ((s.role.Responder? && m.Pair3?) || (s.role.Initiator? && m.Pair4?))
    && m.sig.Just?
    && (right <==> s.exchange.value.derived && m.sig.value == Sig(s.exchange.value.peer, s.exchange.value.auth))
  }

  /** A greeting to a responder, for the session it waits for. */
  predicate Greets(s: Session, m: PairingMessage) {
    s.role.Responder? && m.Pair1? && m.session == s.session
  }

  predicate OfferRefuses(offer: Maybe<OfferStatus>) {
    offer.Just? && offer.value != Valid
  }

  /** The same peer said hello before in this exchange. */
  predicate Retries(s: Session, hello: Hello) {
    s.exchange.Just? && s.havePeer && s.peer == hello.key
  }

  /** The peer's share that the message brings cannot be used, for the exchange it is for. */
  predicate BringsBadShare(g: Group, s: Session, m: PairingMessage, offer: Maybe<OfferStatus>, scalar: nat) {
    || (Greets(s, m) && !OfferRefuses(offer) && m.hello.Just? && !Retries(s, m.hello.value)
        && Receive(g, NewExchange(g, s.role, s.self, s.session, s.code, scalar),
                   m.hello.value.key, m.hello.value.share).1 != NoError)
    || (s.role.Initiator? && m.Pair2? && s.exchange.Just? && m.hello.Just?
        && Receive(g, s.exchange.value, m.hello.value.key, m.hello.value.share).1 != NoError)
  }

  /** What ends the pairing, or the session if it was authenticated. */
  predicate Breaks(g: Group, s: Session, m: PairingMessage, offer: Maybe<OfferStatus>, scalar: nat) {
    || m.PairErr?
    || Signs(s, m, false)
    || (Greets(s, m) && OfferRefuses(offer))
    || BringsBadShare(g, s, m, offer, scalar)
  }

  /** A session is authenticated by the right signature alone; it stays so until a message
      breaks it, and nothing else changes its state. */
  lemma StateAfterMessage(g: Group, s: Session, m: PairingMessage, offer: Maybe<OfferStatus>, scalar: nat)
    ensures Handle(g, s, m, offer, scalar).session.state ==
      if Signs(s, m, true) then Authenticated
      else if Breaks(g, s, m, offer, scalar) then Failed
      else s.state
  {
  }

  /** A peer that reports an error ends the pairing in every state, an authenticated session
      included, and costs no attempt. */
  lemma ErrorEndsPairing(g: Group, s: Session, offer: Maybe<OfferStatus>, scalar: nat)
    ensures var o := Handle(g, s, PairErr, offer, scalar);
      && o.session == s.(state := Failed, failures := s.failures + 1)
      && o.replies == [] && !o.established && !o.charged
  {
  }

  /** An attempt is charged for exactly two things: a share that cannot be used, to a
      responder, and a wrong signature, to a responder. */
  lemma ChargedExactly(g: Group, s: Session, m: PairingMessage, offer: Maybe<OfferStatus>, scalar: nat)
    ensures Handle(g, s, m, offer, scalar).charged <==>
      s.role.Responder? && (BringsBadShare(g, s, m, offer, scalar) || Signs(s, m, false))
  {
  }

  /** Every message is counted at most once: rejected, and then nothing else happens, or
      failed, and then the state says so. */
  lemma CountedOnce(g: Group, s: Session, m: PairingMessage, offer: Maybe<OfferStatus>, scalar: nat)
    ensures var o := Handle(g, s, m, offer, scalar);
      && s.rejected <= o.session.rejected <= s.rejected + 1 && s.failures <= o.session.failures <= s.failures + 1
      && (o.session.rejected > s.rejected ==>
            o.session == s.(rejected := s.rejected + 1) && o.replies == [] && !o.established && !o.charged)
      && (o.session.failures > s.failures <==>
            m.PairErr? || Signs(s, m, false) || BringsBadShare(g, s, m, offer, scalar))
  {
  }

  /** Which messages are rejected: those for the other role or another session, the
      unreadable ones, and those that come before there is an exchange. */
  lemma RejectedExactly(g: Group, s: Session, m: PairingMessage, offer: Maybe<OfferStatus>, scalar: nat)
    ensures Handle(g, s, m, offer, scalar).session.rejected > s.rejected <==>
      match m
      case Pair1(session, hello) =>
        s.role.Initiator? || session != s.session || (!OfferRefuses(offer) && hello.Nothing?)
      case Pair2(hello) => s.role.Responder? || s.exchange.Nothing? || hello.Nothing?
      case Pair3(sig) => s.role.Initiator? || s.exchange.Nothing? || sig.Nothing?
      case Pair4(sig) => s.role.Responder? || s.exchange.Nothing? || sig.Nothing?
      case PairErr => false
      case Unreadable => true
  {
  }

  /** What a responder answers: a greeting with its own hello, the same one again to the same
      peer; a refused offer, a bad share and a wrong signature with an error; and the right
      signature with its own. */
  lemma RepliesExactly(g: Group, s: Session, m: PairingMessage, offer: Maybe<OfferStatus>, scalar: nat)
    requires s.role.Responder?
    ensures var o := Handle(g, s, m, offer, scalar);
      && (o.replies == [PairErr] <==>
            (Greets(s, m) && OfferRefuses(offer)) || BringsBadShare(g, s, m, offer, scalar) || Signs(s, m, false))
      && (Greets(s, m) && !OfferRefuses(offer) && m.hello.Just? && !BringsBadShare(g, s, m, offer, scalar) ==>
            && o.session.exchange.Just?
            && o.replies == [Pair2(Just(Hello(s.self, o.session.exchange.value.share)))]
            && (Retries(s, m.hello.value) ==> o.session == s)
            && (!Retries(s, m.hello.value) ==> o.session.peer == m.hello.value.key && o.session.havePeer))
      && (Signs(s, m, true) ==> o.replies == [Pair4(Just(Sig(s.exchange.value.self, s.exchange.value.auth)))])
      && |o.replies| <= 1
  {
  }

  /** And an initiator: a hello whose share can be used with its signature, and nothing else
      with anything. */
  lemma InitiatorReplies(g: Group, s: Session, m: PairingMessage, offer: Maybe<OfferStatus>, scalar: nat)
    requires s.role.Initiator?
    ensures var o := Handle(g, s, m, offer, scalar);
      if m.Pair2? && s.exchange.Just? && m.hello.Just? && !BringsBadShare(g, s, m, offer, scalar)
      then
        var e := o.session.exchange;
        && e.Just? && e.value.derived && o.replies == [Pair3(Just(Sig(e.value.self, e.value.auth)))]
        && o.session.peer == m.hello.value.key && o.session.havePeer
      else o.replies == []
  {
  }

  /** The hello of a beginning is sent again, the same, until the pairing ends; and then not. */
  lemma HelloIsRepeated(g: Group, s: Session, session: Bytes, code: Bytes, scalar: nat, m: PairingMessage,
                        offer: Maybe<OfferStatus>, later: nat)
    requires s.role.Initiator?
    ensures var (begun, hello) := Begin(g, s, session, code, scalar);
      var o := Handle(g, begun, m, offer, later);
      && hello.Pair1? && hello.session == session && Resend(begun) == Just(hello)
      && (o.session.state.InPairing? ==> Resend(o.session) == Just(hello))
      && (!o.session.state.InPairing? ==> Resend(o.session) == Nothing)
  {
  }

  /** Arming and beginning start over, whatever came before: no exchange but the own one, and
      not authenticated. */
  lemma StartsOver(g: Group, s: Session, session: Bytes, code: Bytes, scalar: nat)
    ensures var a := Arm(s, session, code);
      a.state.InPairing? && a.exchange.Nothing? && a.session == session && a.code == code && a.role == s.role
    ensures var b := Begin(g, s, session, code, scalar).0;
      && b.state.InPairing? && b.session == session && b.role == s.role
      && b.exchange.Just? && !b.exchange.value.derived && b.exchange.value.session == session
  {
  }
}
